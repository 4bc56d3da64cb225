/** Option and Result, the two failure-carrying wrappers the relay model uses. */
module Wrappers {

  /** A value that may be absent (JavaScript's falsy / undefined). */
  datatype Option<+T> = None | Some(value: T)

  /** The outcome of an operation that either succeeds with a value or fails with an error. */
  datatype Result<+R, +E> = Success(value: R) | Failure(error: E)
}
