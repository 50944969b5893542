/**
 * middleware/errorHandler.ts: the final error handler, which picks the
 * status and message from the error's fields by a sequence of checks, the
 * later winning, and `notFound`.
 */
module ErrorHandler {
  import opened Wrappers
  import opened UniqueIndex

  /** The fields of a thrown error the handler reads. `statusCode` and `code` are numbers when set. */
  datatype ApiError = ApiError(
    name: string,
    message: Option<string>,
    statusCode: Option<int>,
    code: Option<int>,
    errors: Option<map<string, seq<string>>>)

  datatype ErrorBody = ErrorBody(success: bool, message: string, errors: Option<map<string, seq<string>>>, statusCode: int)

  datatype ErrorReply = ErrorReply(status: int, body: ErrorBody)

  const InternalErrorMessage: string := "Internal Server Error"
  const ValidationFailedMessage: string := "Validation failed"
  const DuplicateMessage: string := "Duplicate field value"
  const InvalidIdMessage: string := "Invalid ID format"
  const InvalidTokenMessage: string := "Invalid token"
  const TokenExpiredMessage: string := "Token expired"

  /** The status and message the handler settles on, as a priority list: the last check in `errorHandler` comes first here. */
  function Classification(e: ApiError): (int, string) {
    if e.name == "TokenExpiredError" then (401, TokenExpiredMessage)
    else if e.name == "JsonWebTokenError" then (401, InvalidTokenMessage)
    else if e.name == "CastError" then (400, InvalidIdMessage)
    else if e.code == Some(DuplicateKeyCode as int) then (400, DuplicateMessage)
    else if e.name == "ValidationError" then (400, ValidationFailedMessage)
    else
      (if e.statusCode.Some? && e.statusCode.value != 0 then e.statusCode.value else 500,
       if e.message.Some? && e.message.value != "" then e.message.value else InternalErrorMessage)
  }

  /** `errorHandler(error, req, res, next)`. */
  method HandleError(e: ApiError) returns (reply: ErrorReply)
    ensures (reply.status, reply.body.message) == Classification(e)
    ensures reply.body == ErrorBody(false, reply.body.message, e.errors, reply.status)
  {
    var statusCode := if e.statusCode.Some? && e.statusCode.value != 0 then e.statusCode.value else 500;
    var message := if e.message.Some? && e.message.value != "" then e.message.value else InternalErrorMessage;
    var errors := e.errors;
    if e.name == "ValidationError" {
      statusCode := 400;
      message := ValidationFailedMessage;
    }
    if e.code == Some(DuplicateKeyCode as int) {
      statusCode := 400;
      message := DuplicateMessage;
    }
    if e.name == "CastError" {
      statusCode := 400;
      message := InvalidIdMessage;
    }
    if e.name == "JsonWebTokenError" {
      statusCode := 401;
      message := InvalidTokenMessage;
    }
    if e.name == "TokenExpiredError" {
      statusCode := 401;
      message := TokenExpiredMessage;
    }
    reply := ErrorReply(statusCode, ErrorBody(false, message, errors, statusCode));
  }

  /** `Route ${req.originalUrl} not found`. */
  function NotFoundMessage(url: string): string {
    "Route " + url + " not found"
  }

  /** `notFound(req, res)`. */
  function NotFound(url: string): (reply: ErrorReply)
    ensures reply.status == 404 && reply.body.statusCode == 404 && !reply.body.success
    ensures reply.body.errors == None
    ensures |reply.body.message| == |url| + 16
    ensures reply.body.message[..6] == "Route " && reply.body.message[6..6 + |url|] == url
  {
    ErrorReply(404, ErrorBody(false, NotFoundMessage(url), None, 404))
  }
}
