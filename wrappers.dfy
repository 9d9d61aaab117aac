/** Failure-carrying datatypes shared by the modules of this model. */
module Wrappers {

  /** A value that may be absent (Python's `None`). */
  datatype Option<+T> = None | Some(value: T)

  /** A computation that returns a value or fails with an error. */
  datatype Result<+T, +E> = Success(value: T) | Failure(error: E)

  /** A check that passes or fails with an error, returning nothing. */
  datatype Outcome<+E> = Pass | Fail(error: E)
}
