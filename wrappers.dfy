/** Option and Result values shared by the other modules. */
module Wrappers {

  /** A value that may be absent: Python's `None` or a present value. */
  datatype Option<+T> = None | Some(value: T)

  /** The outcome of an operation that can raise: its value or the error it raised. */
  datatype Result<+T, +E> = Success(value: T) | Failure(error: E)
}
