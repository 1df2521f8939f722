/** Failure-carrying datatypes shared by the model: Rust's `Option<T>` and `Result<T, E>`. */
module Wrappers {

  /** Rust's `Option<T>`: a value or nothing. */
  datatype Option<+T> = None | Some(value: T)

  /** Rust's `Result<T, E>`: a success value or an error value. */
  datatype Result<+T, +E> = Ok(value: T) | Err(error: E)
}
