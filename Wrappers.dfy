/** Option and Result values, used where the Python code returns None or raises. */
module Wrappers {

  /** `None` plays the part of Python's `None`. */
  datatype Option<+T> = None | Some(value: T)

  /** `Failure` plays the part of a raised exception. */
  datatype Result<+T, +E> = Success(value: T) | Failure(error: E)
}
