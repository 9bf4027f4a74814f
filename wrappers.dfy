/** Failure-carrying values used throughout the model in place of Java's
    null returns and thrown exceptions. */
module Wrappers {

  /** A Java reference that may be null. */
  datatype Option<+T> = None | Some(value: T)

  /** A computation that either returns a value or raises an error. */
  datatype Result<+T, +E> = Ok(value: T) | Err(error: E)

  /** A computation without a value that either completes or raises an error. */
  datatype Outcome<+E> = Pass | Fail(error: E)
}
