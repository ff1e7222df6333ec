/** Option and Result, the two wrappers the model uses for absent values and failures. */
module Wrappers {

  datatype Option<+T> = None | Some(value: T)

  /** Ok carries a value; Err carries the exception the PHP code would throw. */
  datatype Result<+T, +E> = Ok(value: T) | Err(error: E)
}
