/** Absent-or-present values and success-or-failure results. */
module Wrappers {

  /** A value that may be missing, as an absent key of a JavaScript object. */
  datatype Option<+T> = None | Some(value: T) {
    /** The value, or `default` when it is missing (the effect of an object spread). */
    function GetOr(default: T): T {
      match this
      case Some(v) => v
      case None => default
    }
  }

  /** The outcome of an operation that either returns a value or throws. */
  datatype Result<+T, +E> = Ok(value: T) | Err(error: E)
}
