/** Optional values and results with a typed error, used throughout the model. */
module Wrappers {

  /** A value that may be absent: PHP's `null` is `None`. */
  datatype Option<+T> = None | Some(value: T)

  /** The outcome of an operation that may throw one of the errors `E`. */
  datatype Result<+R, +E> = Success(value: R) | Failure(error: E)
}
