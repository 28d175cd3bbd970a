/** Option and Result wrappers, and the .NET exception kinds the engine throws. */
module Wrappers {

  datatype Option<+T> = None | Some(value: T)

  datatype Result<+T, +E> = Ok(value: T) | Err(error: E)

  /** The .NET exception classes thrown by the modelled code. */
  datatype Exception =
    | InvalidOperation
    | InvalidData
    | IndexOutOfRange
    | ArgumentOutOfRange
    | ArgumentNull
    | NullReference
    | DuplicateKey        // ArgumentException from Dictionary.Add
    | KeyNotFound
    | EndOfStream
    | DivideByZero
    | Overflow
    | NotImplemented
    | NotSupported        // the plain Exception thrown for an unsupported format
}
