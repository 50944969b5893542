/**
 * middleware/validation.ts: `validateRequest` and `validateQuery`, which
 * parse the body (or the query) and, on a Zod error, answer 400 with the
 * issue messages grouped by their dotted path.
 *
 * The schema's verdict is a parameter. The `errors` record is a map from
 * joined path to messages; its keys are also returned in the order they were
 * first met.
 */
module Validation {
  import opened Wrappers
  import opened Text
  import opened Zod

  const BodyFailedMessage: string := "Validation failed"
  const QueryFailedMessage: string := "Query validation failed"

  /** What `schema.parse` did: returned, threw a ZodError, or threw something else. */
  datatype ParseOutcome = Parsed | ZodFailure(issues: seq<Issue>) | Thrown(error: string)

  /** Which part of the request is checked. */
  datatype Target = RequestBody | RequestQuery

  datatype ValidationBody = ValidationBody(success: bool, message: string, errors: map<string, seq<string>>, statusCode: nat)

  /** What the middleware does: `next()`, `next(error)`, or a response. */
  datatype Handled = Next | NextError(error: string) | Respond(status: nat, body: ValidationBody)

  function SegmentText(s: Segment): string {
    match s
    case Key(name) => name
    case Index(i) => Decimal(i)
  }

  /** `path.join('.')`. */
  function JoinPath(path: seq<Segment>): string {
    if path == [] then ""
    else if |path| == 1 then SegmentText(path[0])
    else JoinPath(path[..|path| - 1]) + "." + SegmentText(path[|path| - 1])
  }

  /** The record after the issues, in order: each message pushed under its joined path. */
  function Grouped(issues: seq<Issue>): map<string, seq<string>> {
    if issues == [] then map[]
    else
      var errors := Grouped(issues[..|issues| - 1]);
      var last := issues[|issues| - 1];
      var path := JoinPath(last.path);
      errors[path := (if path in errors then errors[path] else []) + [last.message]]
  }

  /** The record's keys in the order they were created. */
  function KeyOrder(issues: seq<Issue>): seq<string> {
    if issues == [] then []
    else
      var order := KeyOrder(issues[..|issues| - 1]);
      var path := JoinPath(issues[|issues| - 1].path);
      if path in order then order else order + [path]
  }

  /** The `forEach` over the issues. */
  method GroupIssues(issues: seq<Issue>) returns (errors: map<string, seq<string>>, order: seq<string>)
    ensures errors == Grouped(issues)
    ensures order == KeyOrder(issues)
  {
    errors := map[];
    order := [];
    var i := 0;
    while i < |issues|
      invariant 0 <= i <= |issues|
      invariant errors == Grouped(issues[..i])
      invariant order == KeyOrder(issues[..i])
    {
      var path := JoinPath(issues[i].path);
      if path !in errors {
        errors := errors[path := []];
      }
      if path !in order {
        order := order + [path];
      }
      errors := errors[path := errors[path] + [issues[i].message]];
      assert issues[..i + 1][..i] == issues[..i];
      i := i + 1;
    }
    assert issues[..i] == issues;
  }

  function FailedMessage(target: Target): string {
    match target
    case RequestBody => BodyFailedMessage
    case RequestQuery => QueryFailedMessage
  }

  /** The middleware as written: the same for the body and the query but for the message. */
  method Validate(target: Target, outcome: ParseOutcome) returns (h: Handled)
    ensures outcome.Parsed? ==> h == Next
    ensures outcome.Thrown? ==> h == NextError(outcome.error)
    ensures outcome.ZodFailure? ==>
      h == Respond(400, ValidationBody(false, FailedMessage(target), Grouped(outcome.issues), 400))
  {
    match outcome
    case Parsed =>
      h := Next;
    case ZodFailure(issues) =>
      var errors, _ := GroupIssues(issues);
      h := Respond(400, ValidationBody(false, FailedMessage(target), errors, 400));
    case Thrown(e) =>
      h := NextError(e);
  }
}
