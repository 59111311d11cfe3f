/** Failure-carrying result types shared by every module of the model. */
module Wrappers {

  /** A value that may be absent (JavaScript `undefined` / `null` where the source tests for it). */
  datatype Option<+T> = None | Some(value: T)

  /** The outcome of an operation that either returns a value or throws an error. */
  datatype Result<+T, +E> = Success(value: T) | Failure(error: E)
}
