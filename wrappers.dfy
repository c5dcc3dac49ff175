/** Absent values and failures, in place of PHP's null and exceptions. */
module Wrappers {

  /** A value that may be absent (PHP `null`). */
  datatype Option<+T> = None | Some(value: T) {
    /** The value, or `default` when absent (PHP `?? default`). */
    function GetOr(default: T): T {
      match this
      case Some(v) => v
      case None => default
    }
  }

  /** The outcome of an operation that may throw. */
  datatype Result<+T, +E> = Ok(value: T) | Err(error: E)
}
