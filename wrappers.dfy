/** Optional values and results with an error side, shared by every module of the model. */
module Wrappers {

  /** A value that may be missing: JavaScript's `null`/`undefined` or Python's `None` where the source has one. */
  datatype Option<+T> = None | Some(value: T) {
    function GetOr(default: T): T {
      match this
      case Some(v) => v
      case None => default
    }
  }

  /** The outcome of an operation that either produces a value or raises/throws an error. */
  datatype Result<+T, +E> = Ok(value: T) | Err(error: E)
}
