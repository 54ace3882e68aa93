/** Stock failure-compatible wrappers used across the model. */
module Wrappers {

  /** A value that may be absent; stands for a Java reference that may be null. */
  datatype Option<+T> = None | Some(value: T)

  /** The outcome of an operation that can be rejected (a thrown exception in the source). */
  datatype Result<+T, +E> = Success(value: T) | Failure(error: E)

  /** The outcome of an operation that returns nothing but can be rejected. */
  datatype Outcome<+E> = Pass | Fail(error: E)
}
