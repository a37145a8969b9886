/**
 * Values the storefront's components exchange with the browser and the backend:
 * optional values, JavaScript's `undefined`/`null`, the outcome of an HTTP request,
 * the snackbar notifications, and the truthiness of a stored token.
 */
module Web {

  datatype Option<+T> = None | Some(value: T)

  /** A JavaScript value that may also be `undefined` or `null`. */
  datatype Nullable<+T> = Undefined | Null | Defined(value: T)

  /**
   * What the HTTP client hands back for one request: the response body of a
   * successful request, the status and the server's `message` of an error
   * response, or nothing at all when no response arrived (network failure).
   */
  datatype Response<+T> =
    | Ok(data: T)
    | Rejected(status: int, message: string)
    | NoResponse

  /** The `variant` of a snackbar; `Plain` is a snackbar enqueued without one. */
  datatype Severity = Plain | Warning | Error

  /** One snackbar notification shown to the user. */
  datatype Notice = Notice(text: string, severity: Severity)

  /**
   * The token read from local storage is `null` when absent; the empty string
   * is falsy as well.
   */
  predicate Truthy(token: Option<string>) {
    token.Some? && token.value != ""
  }
}
