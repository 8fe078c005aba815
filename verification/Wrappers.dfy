/** Failure-compatible datatypes standing for Go's error returns and absent values. */
module Wrappers {

  /** A value that may be absent, or an error that may be nil. */
  datatype Option<+T> = None | Some(value: T)

  /** Go's `(value, err)` pair, of which exactly one half is meaningful. */
  datatype Result<+T, +E> = Ok(value: T) | Err(error: E)
}
