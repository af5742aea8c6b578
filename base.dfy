/** Outcome types shared by the model: an optional value, the two Python exception
    classes the library raises, and a result that carries either a value or one of them. */
module Base {

  /** A value that may be absent (Python's `None`). */
  datatype Option<T> = None | Some(value: T)

  /** The exceptions raised by the library's validating setters. */
  datatype Error =
    | TypeError(message: string)   // wrong shape of an array argument
    | ValueError(message: string)  // a value outside its permitted range

  /** Either the value an operation returns or the exception it raises. */
  datatype Result<T> = Success(value: T) | Failure(error: Error)
}
