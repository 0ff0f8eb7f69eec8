/** Option and Result, the two failure-carrying datatypes the model threads
    through the deployment steps (Rust's `Option` and `anyhow::Result`). */
module Wrappers {

  datatype Option<+T> = None | Some(value: T)

  datatype Result<+T, +E> = Ok(value: T) | Err(error: E)
}
