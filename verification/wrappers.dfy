/** An optional value (PHP `null`, for a nullable column or argument) and a
    return-or-throw result (a PHP method that either returns or throws). */
module Wrappers {

  /** A nullable value: `None` plays the part of PHP's `null`. */
  datatype Option<+T> = None | Some(value: T) {

    /** This value if there is one, otherwise `other` (PHP's `??`). */
    function OrElse(other: Option<T>): Option<T> {
      match this
      case Some(_) => this
      case None => other
    }
  }

  /** The outcome of an operation that may throw: its value or the error. */
  datatype Result<+R, +E> = Success(value: R) | Failure(error: E)
}
