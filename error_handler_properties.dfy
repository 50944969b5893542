/**
 * What the error handler promises: the default status and message, the
 * fixed mappings, and which of them wins when several apply.
 */
module ErrorHandlerProperties {
  import opened Wrappers
  import opened UniqueIndex
  import opened ErrorHandler

  predicate Recognised(e: ApiError) {
    || e.name in {"ValidationError", "CastError", "JsonWebTokenError", "TokenExpiredError"}
    || e.code == Some(DuplicateKeyCode as int)
  }

  /** An error none of the checks recognise keeps its own status (500 when absent or 0) and message (the default when absent or empty). */
  lemma DefaultClassification(e: ApiError)
    requires !Recognised(e)
    ensures Classification(e).0 == (if e.statusCode.Some? && e.statusCode.value != 0 then e.statusCode.value else 500)
    ensures Classification(e).1 == (if e.message.Some? && e.message.value != "" then e.message.value else InternalErrorMessage)
  {
  }

  /** A recognised error is 400 or 401, whatever its own status says. */
  lemma RecognisedStatus(e: ApiError)
    requires Recognised(e)
    ensures Classification(e).0 == 400 || Classification(e).0 == 401
    ensures Classification(e).0 == 401 <==> e.name == "JsonWebTokenError" || e.name == "TokenExpiredError"
  {
  }

  /** A duplicate key reported inside a validation error is a duplicate: code 11000 is checked later. */
  lemma DuplicateOverridesValidation(e: ApiError)
    requires e.name == "ValidationError" && e.code == Some(11000)
    ensures Classification(e) == (400, DuplicateMessage)
  {
  }

  /** A refused unique-index insert (MongoServerError, code 11000) reaches the client as 400 "Duplicate field value". */
  lemma RefusedInsertIsDuplicate(message: string, statusCode: Option<int>)
    ensures Classification(ApiError("MongoServerError", Some(message), statusCode, Some(DuplicateKeyCode as int), None))
         == (400, DuplicateMessage)
  {
  }

  lemma JwtErrors(e: ApiError)
    ensures e.name == "JsonWebTokenError" ==> Classification(e) == (401, InvalidTokenMessage)
    ensures e.name == "TokenExpiredError" ==> Classification(e) == (401, TokenExpiredMessage)
    ensures e.name == "CastError" ==> Classification(e) == (400, InvalidIdMessage)
  {
  }

  /** `notFound` names the requested URL, and different URLs get different messages. */
  lemma NotFoundNamesUrl(a: string, b: string)
    requires a != b
    ensures NotFound(a).body.message != NotFound(b).body.message
  {
    var ma := NotFound(a).body.message;
    var mb := NotFound(b).body.message;
    if |a| == |b| {
      assert ma[6..6 + |a|] == a && mb[6..6 + |b|] == b;
    } else {
      assert |ma| != |mb|;
    }
  }
}
