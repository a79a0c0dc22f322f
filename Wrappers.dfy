/** Optional values and results with an error, used across the model. */
module Wrappers {

  /** A value that may be absent: SQL NULL, a missing JSON field or a `.get()` with no row. */
  datatype Option<+T> = None | Some(value: T) {
    function GetOr(default: T): T {
      match this
      case Some(v) => v
      case None => default
    }
  }

  /** The outcome of an operation that either succeeds or fails with a typed error. */
  datatype Result<+T, +E> = Ok(value: T) | Err(error: E)
}
