/** The central error middleware (backend/src/middleware/errorHandler.ts):
    the `HttpError` value and the mapping of a thrown value to a status and
    a JSON body. */
module ErrorHandler {
  import opened Wrappers

  /** An `HttpError`: message, status code and optional details (the details
      the code base passes are all short machine-readable strings). */
  datatype HttpError = HttpError(message: string, statusCode: int, details: Option<string>)

  const DefaultStatus := 500

  /** `new HttpError(message, statusCode = 500, details)`: an omitted status
      code (None) becomes 500; message and details are kept as given. */
  function NewHttpError(message: string, statusCode: Option<int>, details: Option<string>): (e: HttpError)
    ensures e.message == message && e.details == details
    ensures statusCode.None? ==> e.statusCode == DefaultStatus
    ensures statusCode.Some? ==> e.statusCode == statusCode.value
  {
    HttpError(message, statusCode.GetOr(DefaultStatus), details)
  }

  /** What the handler's two `instanceof` tests see in a thrown value: the
      issues when it is a `ZodError`, the error when it is an `HttpError`. */
  datatype Thrown = Thrown(zodIssues: Option<seq<string>>, http: Option<HttpError>)

  function ZodFailure(issues: seq<string>): Thrown { Thrown(Some(issues), None) }
  function HttpFailure(e: HttpError): Thrown { Thrown(None, Some(e)) }
  /** Anything else: a plain `Error`, a string, undefined. */
  const OtherFailure := Thrown(None, None)

  datatype ErrorBody =
    | ValidationBody(message: string, issues: seq<string>)
    | HttpBody(message: string, details: Option<string>)
    | InternalBody(message: string)

  datatype ErrorReply = ErrorReply(status: int, body: ErrorBody)

  /** `errorHandler`. */
  function HandleError(err: Thrown): (r: ErrorReply)
    ensures err.zodIssues.Some? ==> r == ErrorReply(400, ValidationBody("Validation error", err.zodIssues.value))
    ensures err.zodIssues.None? && err.http.Some? ==>
              r == ErrorReply(err.http.value.statusCode, HttpBody(err.http.value.message, err.http.value.details))
    ensures err.zodIssues.None? && err.http.None? ==> r == ErrorReply(500, InternalBody("Internal server error"))
  {
    if err.zodIssues.Some? then ErrorReply(400, ValidationBody("Validation error", err.zodIssues.value))
    else if err.http.Some? then
      ErrorReply(err.http.value.statusCode, HttpBody(err.http.value.message, err.http.value.details))
    else ErrorReply(500, InternalBody("Internal server error"))
  }

  /** The three cases by status and body kind: a value is answered as a
      validation failure exactly when it is a ZodError, whatever else it is;
      an `HttpError` keeps its own status; everything else is a 500. */
  lemma HandleErrorCases(err: Thrown)
    ensures HandleError(err).body.ValidationBody? <==> err.zodIssues.Some?
    ensures HandleError(err).body.HttpBody? <==> err.zodIssues.None? && err.http.Some?
    ensures HandleError(err).body.InternalBody? <==> err.zodIssues.None? && err.http.None?
    ensures HandleError(err).body.InternalBody? ==> HandleError(err).status == 500
  {
  }

  /** An `HttpError` created without a status code is answered with 500, and
      with its own message rather than the generic one. */
  lemma DefaultStatusReply(message: string, details: Option<string>)
    ensures var r := HandleError(HttpFailure(NewHttpError(message, None, details)));
      r.status == 500 && r.body == HttpBody(message, details)
  {
  }
}
