/** Failure-compatible value wrappers shared by every module of the model. */
module Wrappers {

  /** An optional value: `std::optional` and nullable pointers in the system. */
  datatype Option<+T> = None | Some(value: T)

  /** A value or an error: the model of an operation that may throw. */
  datatype Result<+T, +E> = Success(value: T) | Failure(error: E)
}
