/** The optional value used wherever the original code has a value or null/NaN. */
module Wrappers {

  datatype Option<+T> = None | Some(value: T) {

    /** The value in Some, or the default when None (JavaScript's `x ?? d`). */
    function GetOr(default: T): T {
      match this
      case Some(v) => v
      case None => default
    }
  }
}
