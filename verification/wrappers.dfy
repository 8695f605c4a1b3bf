/** Optional values and success/failure results used across the model. */
module Wrappers {

  /** A value that may be absent (a missing field, no selection, no stored record). */
  datatype Option<+T> = None | Some(value: T) {

    /** The wrapped value, or `default` when there is none. */
    function GetOr(default: T): T {
      match this
      case Some(v) => v
      case None => default
    }
  }

  /** The outcome of an operation that can be rejected with a message. */
  datatype Result<+T, +E> = Success(value: T) | Failure(error: E) {

    /** The success value, or `default` when the operation was rejected. */
    function GetOr(default: T): T {
      match this
      case Success(v) => v
      case Failure(_) => default
    }
  }
}
