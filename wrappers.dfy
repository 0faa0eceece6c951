/** Option and Result types for the library's null placeholders and thrown exceptions. */
module Wrappers {

  /** PHP `null` versus a present value. */
  datatype Option<T> = None | Some(value: T)

  /** The PHP exceptions and errors the modelled functions can raise. */
  datatype Exception =
    | RangeException(message: string)
    | DivisionByZeroError(message: string)

  /** Either the function's return value or the exception it throws. */
  datatype Result<T> = Success(value: T) | Failure(error: Exception)
}
