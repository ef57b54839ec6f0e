/** Option and Result, the two failure-carrying shapes the library uses. */
module Wrappers {

  datatype Option<+T> = None | Some(value: T)

  /** A `Result<T, E>` of the Rust code: `Ok` with a value or `Err` with an error. */
  datatype Result<+T, +E> = Ok(value: T) | Err(error: E)
}
