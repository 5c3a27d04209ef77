/** Failure-compatible result types shared by every module of the model. */
module Wrappers {

  /** A value that may be missing: JavaScript's `undefined` is `None`. */
  datatype Option<+T> = None | Some(value: T) {
    function GetOr(default: T): T {
      match this
      case Some(v) => v
      case None => default
    }
  }

  /** The outcome of an operation that yields a value or fails with an error. */
  datatype Result<+T, +E> = Ok(value: T) | Err(error: E)

  /** The outcome of an operation that yields nothing or fails with an error. */
  datatype Outcome<+E> = Pass | Fail(error: E)
}
