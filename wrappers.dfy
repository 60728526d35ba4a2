/** Failure-carrying results used in place of the source's exceptions. */
module Wrappers {

  datatype Option<+T> = None | Some(value: T)

  /** A computation that either produces a value or fails with an error. */
  datatype Result<+T, +E> = Ok(value: T) | Err(error: E)

  /** A computation that produces no value and either passes or fails. */
  datatype Outcome<+E> = Pass | Fail(error: E)
}
