/** Failure-carrying result types shared by the other modules. */
module Wrappers {

  /** A value that may be missing: SQL NULL, or a lookup that found no row. */
  datatype Option<+T> = None | Some(value: T) {
    function GetOr(default: T): T {
      match this
      case Some(v) => v
      case None => default
    }
  }

  /** The outcome of a statement that can fail with a constraint violation. */
  datatype Result<+R, +E> = Success(value: R) | Failure(error: E)
}
