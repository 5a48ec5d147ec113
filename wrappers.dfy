/** Option and the outcome of one backend call, shared by every module of the console. */
module Wrappers {

  datatype Option<T> = None | Some(value: T) {
    function GetOr(default: T): T {
      match this
      case Some(v) => v
      case None => default
    }
  }

  /** What a call through the HTTP client settles with: the response payload, or
      a rejection carrying the HTTP status when a response arrived at all
      (None for a network error or a timeout) and the `message` member of the
      error body, if it had one. */
  datatype Reply<T> = Ok(data: T) | Failed(status: Option<int>, message: Option<string>)

  /** `m || fallback` on an optional string: JavaScript treats "" as false. */
  function OrElse(m: Option<string>, fallback: string): string {
    if m.Some? && m.value != "" then m.value else fallback
  }

  /** Severity of the snackbar a page opens after an admin action. */
  datatype Severity = Success | Error
}
