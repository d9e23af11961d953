/** Shared wrappers and the client's error taxonomy. */
module Common {

  datatype Option<+T> = None | Some(value: T)

  /** The exceptions the client raises, one constructor per exception class. */
  datatype Error =
    /** AuthenticationException: the service answered 203. */
    | AuthenticationException(message: string)
    /** The library's own Exception class (generic failure, message says why). */
    | LibraryException(message: string)
    /** A GuzzleException that is not caught and re-wrapped. */
    | GuzzleException(message: string)
    | WorkItemNotFoundException(message: string)
    | WorkItemNotUniqueException(message: string)
    /** Declared by the library but never raised by the modelled code. */
    | WorkItemAlreadyExistsException(message: string)
    /** PHP's TypeError/Error: a value of the wrong type reached a typed parameter or return. */
    | TypeError(message: string)

  datatype Result<+T> = Ok(value: T) | Err(error: Error) {
    predicate IsFailure() { Err? }

    function PropagateFailure<U>(): Result<U>
      requires Err?
    {
      Err(error)
    }

    function Extract(): T
      requires Ok?
    {
      value
    }
  }

  /** The message every AuthenticationException of the client carries. */
  const AuthenticationMessage := "API-Call could not be authenticated correctly."
}
