/** Optional values and success/failure results, used throughout the model
    for Go's nil pointers and `(value, error)` returns. */
module Wrappers {

  /** A value that may be absent: Go's `*T` read as "nil or a value". */
  datatype Option<+T> = None | Some(value: T) {

    /** The wrapped value, or `default` when absent. */
    function GetOr(default: T): T {
      match this
      case Some(v) => v
      case None => default
    }
  }

  /** Either a value or an error. */
  datatype Result<+R, +E> = Success(value: R) | Failure(error: E)

  /** Success without a value, or an error: Go's bare `error` return. */
  datatype Outcome<+E> = Pass | Fail(error: E)
}
