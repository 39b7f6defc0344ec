/** Option and Result: the nullable values and thrown errors of the
    TypeScript code, as values. */
module Wrappers {

  datatype Option<+T> = None | Some(value: T) {
    /** The value, or the default when absent (TypeScript `x ?? d`). */
    function GetOr(default: T): T {
      match this
      case Some(v) => v
      case None => default
    }
  }

  /** A computation that returns a value or raises an error. */
  datatype Result<+T, +E> = Ok(value: T) | Err(error: E)
}
