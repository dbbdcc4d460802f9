/**
 * The two wrappers the model uses: `Option` for a Java reference that may be
 * `null`, and `Result` for an operation that either returns or throws.
 */
module Wrappers {
  datatype Option<+T> = None | Some(value: T)

  datatype Result<+T, +E> = Ok(value: T) | Err(error: E)
}
