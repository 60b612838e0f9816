/** Option and Result: the stock failure-carrying datatypes used across the model. */
module Wrappers {

  /** A value that may be absent (Python's `None`). */
  datatype Option<+T> = None | Some(value: T)

  /** Either a computed value or the exception that the source would have raised instead. */
  datatype Result<+T, +E> = Success(value: T) | Failure(error: E)
}
