/**
 * The response envelope every handler returns: a status word, optional data
 * and an optional error (code and message), as the handlers build it before
 * the routers encode it as JSON.
 */
module Http {
  import opened Wrappers

  /** The fixed message every 500 carries. */
  const Internal := "Oops! Something went wrong. We're working to fix the issue. Please try again later."

  datatype HttpError = HttpError(code: int, message: string)

  datatype Response<T> = Response(status: string, data: Option<T>, errors: Option<HttpError>)
  {
    predicate Succeeded() { status == "success" }
  }

  function Ok<T>(data: T): Response<T> {
    Response("success", Some(data), None)
  }

  function Failed<T>(code: int, message: string): Response<T> {
    Response("failed", None, Some(HttpError(code, message)))
  }
}
