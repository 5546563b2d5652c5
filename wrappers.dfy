/** Option and Result, the two failure-carrying shapes the Rust source uses. */
module Wrappers {

  datatype Option<+T> = None | Some(value: T)

  /** `Ok` carries the value, `Err` the error, as Rust's `Result<T, E>`. */
  datatype Result<+T, +E> = Ok(value: T) | Err(error: E)
}
