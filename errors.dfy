/**
 * The exceptions the modelled Python code can raise, and how the web framework
 * turns each into an HTTP status: an `HTTPException` keeps its own status and
 * detail, every other exception becomes a 500.
 */
module Errors {

  datatype Error =
    | HttpError(status: int, detail: string)  // fastapi.HTTPException raised by the code itself
    | ConnectError(reason: string)            // an outbound call that got no response
    | StatusError(status: int)                // raise_for_status() on an error status
    | JsonError                               // r.json() on a body that is not JSON
    | KeyError(key: string)                   // d[key] on a missing key
    | AttributeError(name: string)            // reading an attribute None or the object does not have
    | AssertionError                          // a failing `assert`
    | ValueError(message: string)             // a malformed URL, or a write to an undeclared model field
    | TypeError(message: string)              // call arguments that do not fit the signature

  /** The status of the HTTP response the framework sends for an uncaught `e`. */
  function StatusOf(e: Error): (s: int)
    ensures e.HttpError? ==> s == e.status
    ensures !e.HttpError? ==> s == 500
  {
    if e.HttpError? then e.status else 500
  }
}
