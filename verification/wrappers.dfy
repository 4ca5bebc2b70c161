/** Option and Result datatypes shared by the parser model. */
module Wrappers {

  /** A value that may be absent: an unset optional field, a lookup that found nothing. */
  datatype Option<+T> = None | Some(value: T)

  /** The outcome of an operation that either produces a value or raises an error. */
  datatype Result<+R, +E> = Success(value: R) | Failure(error: E)
}
