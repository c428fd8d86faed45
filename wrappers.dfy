/** Option and Result, the two wrappers the modules below share. */
module Wrappers {
  datatype Option<+T> = None | Some(value: T)

  /** A value, or the failure that stopped the computation producing it. */
  datatype Result<+T, +E> = Ok(value: T) | Fail(error: E)
}
