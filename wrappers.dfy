/** Optional values and results with an error, shared by every module of the model. */
module Wrappers {

  /** A value that may be absent: a JavaScript `undefined`/`null`/`false` where the source tests truthiness. */
  datatype Option<+T> = None | Some(value: T) {
    function GetOr(default: T): T {
      match this
      case Some(v) => v
      case None => default
    }
  }

  /** The outcome of an operation that the source lets throw. */
  datatype Result<+R, +E> = Success(value: R) | Failure(error: E)
}
