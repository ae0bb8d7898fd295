/** Failure-compatible wrappers used by the state-machine model. */
module Wrappers {

  /** A value that may be absent (Python's `None`). */
  datatype Option<+T> = None | Some(value: T)

  /** A value or the error that took its place (a raised exception). */
  datatype Result<+R, +E> = Success(value: R) | Failure(error: E)

  /** Completion of an operation that returns nothing on success. */
  datatype Outcome<+E> = Pass | Fail(error: E)
}
