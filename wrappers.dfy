/** Option and Result wrappers used across the model. */
module Wrappers {

  /** A value that may be absent: a JavaScript `undefined` or `null`. */
  datatype Option<+T> = None | Some(value: T) {
    function GetOr(default: T): T {
      match this
      case Some(v) => v
      case None => default
    }
  }

  /** The outcome of a request that can be refused. */
  datatype Result<+R, +E> = Success(value: R) | Failure(error: E)
}
