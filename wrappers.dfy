/** Failure-carrying result types shared by the store and the matcher. */
module Wrappers {

  datatype Option<+T> = None | Some(value: T)

  /** The value of a call that either yields a value or fails with an error. */
  datatype Result<+T, +E> = Success(value: T) | Failure(error: E)

  /** The value of a call that yields nothing but may fail with an error. */
  datatype Outcome<+E> = Pass | Fail(error: E)
}
