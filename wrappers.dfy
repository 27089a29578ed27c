/** Failure-compatible wrappers used throughout the model: a nullable value and
    a value-or-exception result. */
module Wrappers {

  /** A value that may be absent (a null pointer, a parameter not in the file). */
  datatype Option<+T> = None | Some(value: T) {

    /** The wrapped value, or `default` when there is none. */
    function GetOr(default: T): T {
      match this
      case Some(v) => v
      case None => default
    }
  }

  /** The outcome of a call that either returns a value or throws. */
  datatype Result<+R, +E> = Success(value: R) | Failure(error: E)
}
