/** Option and Result, the two failure-carrying shapes the model uses. */
module Wrappers {

  /** A value that may be absent: a lookup that misses, a scan that finds nothing. */
  datatype Option<+T> = None | Some(value: T)

  /** The outcome of a handler step: a computed value or the error that stopped it. */
  datatype Result<+T, +E> = Ok(value: T) | Err(error: E)
}
