/** Option and Result, the two failure-carrying shapes the contract uses. */
module Wrappers {

  /** An optional value (Rust's `Option<T>`). */
  datatype Option<+T> = None | Some(value: T)

  /** Either a success value or an error (Rust's `Result<T, E>`). */
  datatype Result<+T, +E> = Success(value: T) | Failure(error: E)
}
