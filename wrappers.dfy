/** Option and Result datatypes shared by the workout modules. */
module Wrappers {

  /** A value that may be missing: a nullable column, an undefined array element. */
  datatype Option<+T> = None | Some(value: T)

  /** The outcome of an operation that can throw. */
  datatype Result<+T, +E> = Success(value: T) | Failure(error: E)
}
