/** Option and Result datatypes shared by the other modules. */
module Wrappers {

  /** A value that may be absent, standing in for Kotlin's nullable types. */
  datatype Option<+T> = None | Some(value: T)

  /** The outcome of an operation that can fail with an error of type `E`. */
  datatype Result<+R, +E> = Success(value: R) | Failure(error: E)
}
