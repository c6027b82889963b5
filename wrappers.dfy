/** Python's `Optional[T]` and the error outcome of an operation that raises. */
module Wrappers {

  /** A value that may be `None`. */
  datatype Option<+T> = None | Some(value: T) {

    /** The value, or `default` when `None` — Python's `x if x is not None else default`. */
    function GetOr(default: T): T {
      match this
      case Some(v) => v
      case None => default
    }
  }

  /** The outcome of an operation that either returns a value or raises. */
  datatype Result<+R, +E> = Success(value: R) | Failure(error: E)
}
