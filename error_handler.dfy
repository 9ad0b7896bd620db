/**
 * The Express error middleware: every error a controller passes to `next`
 * becomes an HTTP status and a JSON body here.
 */
module ErrorHandler {
  import opened Wrappers

  /** The fields of a thrown JavaScript error the handler looks at. */
  datatype JsError = JsError(name: string, message: string, code: Option<int>, statusCode: Option<int>)

  /** The JSON body `{ error, details? }` of every error response. */
  datatype ErrorBody = ErrorBody(error: string, details: Option<string>)

  datatype HttpError = HttpError(status: int, body: ErrorBody)

  /** What a controller sends: a success status with a value, or an error response. */
  datatype Reply<T> = Ok(code: int, value: T) | Fail(failure: HttpError) {
    function Status(): int {
      if Ok? then code else failure.status
    }
  }

  /** `new Error(message)`. */
  function PlainError(message: string): JsError {
    JsError("Error", message, None, None)
  }

  /** A Mongoose document validation error. */
  function ValidationError(message: string): JsError {
    JsError("ValidationError", message, None, None)
  }

  /** A plain `{ error }` response, as the controllers send with `res.status(s).json(...)`. */
  function Reject(status: int, message: string): HttpError {
    HttpError(status, ErrorBody(message, None))
  }

  /** The first rule whose condition holds decides status and body. */
  function HandleError(err: JsError): (r: HttpError)
    ensures err.name == "ValidationError" ==> r == HttpError(400, ErrorBody("Validation error", Some(err.message)))
    ensures err.name == "CastError" ==> r == Reject(400, "Invalid ID")
    ensures err.name == "MongoError" && err.code == Some(11000) ==> r == Reject(409, "Duplicate field value")
    ensures err.name != "ValidationError" && err.name != "CastError" && !(err.name == "MongoError" && err.code == Some(11000)) ==>
      && r.status == (if err.statusCode.Some? && err.statusCode.value != 0 then err.statusCode.value else 500)
      && r.body == ErrorBody(if err.message != "" then err.message else "Internal server error", None)
    ensures r.body.details.Some? <==> err.name == "ValidationError"
  {
    if err.name == "ValidationError" then
      HttpError(400, ErrorBody("Validation error", Some(err.message)))
    else if err.name == "CastError" then
      Reject(400, "Invalid ID")
    else if err.name == "MongoError" && err.code == Some(11000) then
      Reject(409, "Duplicate field value")
    else
      var status := if err.statusCode.Some? && err.statusCode.value != 0 then err.statusCode.value else 500;
      Reject(status, if err.message != "" then err.message else "Internal server error")
  }

  /** An error with neither a status code nor a message is a 500 with the generic message. */
  lemma BareErrorIsInternal(name: string)
    requires name != "ValidationError" && name != "CastError"
    ensures HandleError(JsError(name, "", None, None)) == Reject(500, "Internal server error")
  {
  }

  /** A MongoError with another code than 11000 is not a conflict: it falls through to the default rule. */
  lemma OtherMongoCodeFallsThrough(err: JsError)
    requires err.name == "MongoError" && err.code != Some(11000)
    ensures HandleError(err).status != 409 || err.statusCode == Some(409)
  {
  }
}
