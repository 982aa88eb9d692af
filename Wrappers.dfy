/** Option and Result types used across the model for values that may be
    absent and for operations that end in a thrown exception. */
module Wrappers {

  datatype Option<+T> = None | Some(value: T)

  /** The exceptions the modelled code can throw. */
  datatype Exception =
    | ArgumentException(message: string)
    | ArgumentOutOfRangeException
    | FormatException
    | OverflowException
    | DivideByZeroException
    | KeyNotFoundException
    | InvalidCastException
    | InvalidOperationException(message: string)
    | IndexOutOfRangeException
    | NotImplementedException
    | NotSupportedException

  /** Either a value or the exception the call ended with. */
  datatype Result<+T> = Success(value: T) | Failure(error: Exception)
}
