/** The outcome of a contract message: the value `Ok(value)` or the error `Err(error)`,
    as Rust's `Result<T, E>`. */
module Wrappers {

  datatype Result<+T, +E> = Ok(value: T) | Err(error: E)

}
