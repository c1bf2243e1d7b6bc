/** Failure-carrying result types shared by the whole model. */
module Wrappers {

  /** A value that may be missing. */
  datatype Option<T> = None | Some(value: T)

  /** Either a value or the error that stopped the computation (a Python exception). */
  datatype Result<T, E> = Success(value: T) | Failure(error: E)
}
