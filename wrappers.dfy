/** Failure-carrying result types shared by the rest of the model. */
module Wrappers {

  datatype Option<+T> = None | Some(value: T)

  /** The value of an operation that either succeeds with a value or fails with an error. */
  datatype Result<+R, +E> = Success(value: R) | Failure(error: E)

  /** The value of a check that either passes or fails with an error. */
  datatype Outcome<+E> = Pass | Fail(error: E)
}
