/** Failure-carrying wrappers used throughout the model. */
module Wrappers {

  /** A value that may be absent: the model's stand-in for a missing JSON key. */
  datatype Option<+T> = None | Some(value: T)

  /** The outcome of an operation that either produces a value or stops with an error. */
  datatype Result<+T, +E> = Success(value: T) | Failure(error: E)
}
