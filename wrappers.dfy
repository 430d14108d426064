/** The two failure-carrying shapes the model uses: an optional value and a
    success-or-error result (the `Result<String, String>` of the Rust backend). */
module Wrappers {

  datatype Option<+T> = None | Some(value: T)

  datatype Result<+T, +E> = Ok(value: T) | Err(error: E)
}
