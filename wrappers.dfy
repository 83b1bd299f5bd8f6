/** Failure-compatible result types used for the exceptions the document core raises. */
module Wrappers {

  datatype Option<+T> = None | Some(value: T)

  /** A computation that yields a value or raises an error. */
  datatype Result<+R, +E> = Success(value: R) | Failure(error: E)

  /** A computation that yields nothing or raises an error. */
  datatype Outcome<+E> = Pass | Fail(error: E)
}
