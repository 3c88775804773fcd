/** Option and Result values used throughout the model in place of
    JavaScript's `undefined` and thrown exceptions. */
module Wrappers {

  /** `None` stands for JavaScript `undefined` (or `null` where the source treats them alike). */
  datatype Option<+T> = None | Some(value: T) {
    function GetOr(default: T): T {
      match this
      case Some(v) => v
      case None => default
    }
  }

  /** The outcome of an operation that may throw. */
  datatype Result<+R, +E> = Success(value: R) | Failure(error: E)

  /** The outcome of an operation that returns nothing but may throw. */
  datatype Outcome<+E> = Pass | Fail(error: E)

  /** The JavaScript exceptions the modelled code can raise. */
  datatype JsError =
    | SyntaxError          // JSON.parse on text that is not JSON
    | TypeError            // property access on null/undefined, `in` on a primitive
    | InvalidStateError    // WebSocket.send while the socket is still connecting
    | InvalidCharacterError // btoa on a character above U+00FF
    | NotAllowedError      // getUserMedia refused by the user or the platform
}
