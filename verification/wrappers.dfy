/** Failure-compatible result types standing in for Rust's `Option` and `Result`. */
module Wrappers {

  /** Rust's `Option<T>`. */
  datatype Option<+T> = None | Some(value: T)

  /** Rust's `Result<T, E>`: `Ok` is `Success`, `Err` is `Failure`. */
  datatype Result<+T, +E> = Success(value: T) | Failure(error: E)
}
