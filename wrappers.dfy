/** The outcome of an operation that can fail, as Rust's `Result`. */
module Wrappers {

  datatype Result<T, E> = Ok(value: T) | Err(error: E)
}
