/** Option and Result, the two wrappers the model uses for Rust's `Option`/`Result`
    and for the places where the Rust code panics. */
module Wrappers {

  datatype Option<T> = None | Some(value: T)

  datatype Result<T, E> = Ok(value: T) | Err(error: E)
}
