/** The exceptions raised by the domain layer, as error values, together with
    the Option, Result and Outcome wrappers through which every operation that
    can raise returns. */
module Errors {

  /** One constructor per exception class; each carries the exception's message
      (its `args[0]`). */
  datatype Error =
    | NotFound(message: string)       // NotFoundException
    | Validation(message: string)     // ValidationException
    | InvalidUuid(message: string)    // InvalidUuidException
    | TypeError(message: string)      // Python's built-in TypeError

  datatype Option<+T> = None | Some(value: T)

  /** The outcome of an operation that returns a value or raises. */
  datatype Result<+T> = Ok(value: T) | Err(error: Error)

  /** The outcome of an operation that returns nothing or raises. */
  datatype Outcome = Pass | Fail(error: Error)

  /** The default message of InvalidUuidException. */
  const InvalidUuidMessage: string := "Invalid UUID"

  /** The message the in-memory repository puts in a NotFoundException. */
  function NotFoundMessage(id: string): string
  {
    "Entity not using ID '" + id + "'"
  }
}
