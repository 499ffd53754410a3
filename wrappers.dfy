/** Option and Result, the two shapes the Rust and TypeScript code return. */
module Wrappers {

  /** Rust's `Option<T>`; also a JavaScript value that may be missing. */
  datatype Option<+T> = None | Some(value: T)

  /** Rust's `Result<T, E>`. */
  datatype Result<+T, +E> = Ok(value: T) | Err(error: E)
}
