/** Failure-carrying values shared by every module of the model. */
module Wrappers {

  /** An optional value, Rust's `Option`. */
  datatype Option<+T> = None | Some(value: T)

  /** A value or an error, Rust's `Result`. */
  datatype Result<+T, +E> = Success(value: T) | Failure(error: E)

  /** A check that passes or fails with an error, Rust's `Result<()>`. */
  datatype Outcome<+E> = Pass | Fail(error: E)
}
