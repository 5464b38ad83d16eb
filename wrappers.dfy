/** Option and Result, the two failure-carrying wrappers the rest of the model uses. */
module Wrappers {

  /** A value that may be absent: Go's `v, ok := m[k]` and nil-able results. */
  datatype Option<+T> = None | Some(value: T)

  /** Either a value or an error message: Go's `(T, error)` return pairs. */
  datatype Result<+T> = Ok(value: T) | Err(error: string)
}
