/** Option and Result: absent values and error returns as plain data. */
module Wrappers {

  /** A value that may be absent: Go's nil pointer or nil error. */
  datatype Option<+T> = None | Some(value: T)

  /** Either a value or an error, the shape of a Go `(T, error)` return. */
  datatype Result<+R, +E> = Success(value: R) | Failure(error: E)
}
