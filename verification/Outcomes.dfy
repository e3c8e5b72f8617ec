/** The outcome of an operation that may fail closed. A raised exception of the
    program becomes `Refused`, carrying the class of the exception. */
module Outcomes {

  datatype Error =
    | NotExecutable    // LevelNotExecutableError
    | OutOfContract    // InkError, QntySpotError and its schema errors
    | SafeHalt         // SafeHaltError
    | Malformed        // CanonicalFormError, EnvelopeValidationError

  datatype Result<+T> = Ok(value: T) | Refused(error: Error) {
    predicate IsFailure() {
      Refused?
    }

    function PropagateFailure<U>(): Result<U>
      requires Refused?
    {
      Refused(error)
    }

    function Extract(): T
      requires Ok?
    {
      value
    }
  }

  datatype Option<+T> = None | Some(value: T)
}
