/** Option and Result, shared by every module of the model. */
module Wrappers {
  datatype Option<+T> = None | Some(value: T)

  /**
   * Rust's `Result`, with one more case for a panic: an abort the program does
   * not recover from (an index out of range, an `unwrap` of `None`, an explicit
   * `panic!`).
   */
  datatype Result<+T, +E> = Ok(value: T) | Err(error: E) | Panic(message: string)
}
