/** Option and Result, the two wrappers the pipeline needs. */
module Wrappers {

  /** A value that may be absent (`nil` in the source). */
  datatype Option<+T> = None | Some(value: T)

  /** A value, or the error text a Go call returned beside it. */
  datatype Result<+T, +E> = Ok(value: T) | Err(error: E)
}
