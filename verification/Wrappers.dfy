/** Failure-compatible results used for the source's exceptions. */
module Wrappers {

  datatype Option<+T> = None | Some(value: T)

  datatype Result<+R, +E> = Success(value: R) | Failure(error: E)

  /** A check that either passes or fails with an error value. */
  datatype Outcome<+E> = Pass | Fail(error: E)
}
