/** Failure-compatible wrappers shared by the whole model.

    Java's `null` becomes `None` wherever the source tests for it, and every
    exception the modelled code throws becomes an `Err` carrying an `Exception`.
 */
module Wrappers {

  /** A Java reference that may be null, or a `java.util.Optional`. */
  datatype Option<+T> = None | Some(value: T) {
    predicate IsFailure() { None? }

    function PropagateFailure<U>(): Option<U>
      requires None?
    {
      None
    }

    function Extract(): T
      requires Some?
    {
      value
    }
  }

  /** The exceptions thrown by the modelled code. A `Preconditions.checkArgument`
      without a message template throws with a null message, written "" here. */
  datatype Exception =
    | IllegalArgument(message: string)
    | IllegalState(message: string)
    | NullPointer
    | Interrupted(message: string)
    | OperationFailed(errorCodes: seq<string>)
    | NoSuchAlgorithm(algorithm: string)
    | ConditionTimeout

  /** A value, or the exception that was thrown instead. */
  datatype Result<+T> = Ok(value: T) | Err(error: Exception) {
    predicate IsFailure() { Err? }

    function PropagateFailure<U>(): Result<U>
      requires Err?
    {
      Err(error)
    }

    function Extract(): T
      requires Ok?
    {
      value
    }
  }
}
