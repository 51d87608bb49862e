/** Option and Result, the wrappers used across the model. */
module Wrappers {

  /** A value that may be absent: a C# nullable reference (`string?`). */
  datatype Option<+T> = None | Some(value: T)

  /** The outcome of an operation that either yields a value or reports an error. */
  datatype Result<+T, +E> = Success(value: T) | Failure(error: E)
}
