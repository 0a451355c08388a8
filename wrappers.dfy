/** Option and Result, shared by the other modules. */
module Wrappers {

  /** A value that may be absent: an invalid prim, a missing key, a Python exception. */
  datatype Option<+T> = None | Some(value: T)

  /** A result carrying either a value or an error. */
  datatype Result<+T, +E> = Success(value: T) | Failure(error: E)
}
