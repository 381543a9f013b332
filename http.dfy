/**
 * The slice of HTTP the server side looks at: the request's XHR marker,
 * its Accept header and its query string; JSON response bodies; and the
 * exception classes the error listener distinguishes.
 */
module Http {
  import opened Wrappers

  datatype Request = Request(
    isXmlHttpRequest: bool,
    accept: Option<string>,
    query: map<string, string>)

  /** The JSON values a response body is built from; a PHP array with string keys is an object. */
  datatype Json =
    | JBool(b: bool)
    | JInt(i: int)
    | JString(s: string)
    | JList(items: seq<Json>)
    | JObject(fields: map<string, Json>)

  datatype JsonResponse = JsonResponse(data: map<string, Json>, status: int)

  /** A request the server answers with JSON: an XHR, or one whose Accept header is exactly application/json. */
  predicate WantsJson(request: Request) {
    request.isXmlHttpRequest || request.accept == Some("application/json")
  }

  /**
   * A thrown object, described by the classes and interfaces it is an instance
   * of (several may hold at once), its message, and, when it implements the
   * HTTP exception interface, its status code.
   */
  datatype Throwable = Throwable(
    isEntityNotFound: bool,
    isBadRequest: bool,
    isInvalidArgument: bool,
    isAccessDenied: bool,
    httpStatusCode: Option<int>,
    message: string)

  /** The exception the service raises for an id with no stored task. */
  function EntityNotFound(message: string): Throwable {
    Throwable(true, false, false, false, None, message)
  }
}
