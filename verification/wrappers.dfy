/** Failure-carrying result types shared by every module of the model. */
module Wrappers {

  /** A value that may be absent: Go's nil pointer or a missing lookup. */
  datatype Option<+T> = None | Some(value: T)

  /** Either a value or the error that replaced it. */
  datatype Result<+T, +E> = Success(value: T) | Failure(error: E)
}
