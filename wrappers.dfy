/** Optional values and success/failure results shared by every module of the model. */
module Wrappers {

  /** A value that may be absent (a JavaScript `undefined` or `null`). */
  datatype Option<+T> = None | Some(value: T) {
    function GetOr(default: T): T {
      match this
      case Some(v) => v
      case None => default
    }
  }

  /** The outcome of an operation that may throw: the value, or the thrown message. */
  datatype Result<+R> = Success(value: R) | Failure(error: string)
}
