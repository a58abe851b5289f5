/** Failure-carrying results for the operations that raise exceptions in the Java engine. */
module Wrappers {

  /** The exceptions the engine raises, named after the condition that causes them. */
  datatype Error =
    | InvalidValue      // IllegalArgumentException: a digit outside 1..9
    | NotACandidate     // IllegalStateException: solving a cell to a value it does not carry
    | NoCandidatesLeft  // IllegalStateException: a removal emptied a cell
    | EmptyCollection   // NoSuchElementException / EmptyStackException
    | IndexOutOfRange   // IndexOutOfBoundsException from List.get

  datatype Option<+T> = None | Some(value: T)

  datatype Result<+T> = Ok(value: T) | Err(error: Error) {
    predicate IsFailure() { Err? }
    function PropagateFailure<U>(): Result<U>
      requires Err?
    {
      Err(error)
    }
    function Extract(): T
      requires Ok?
    {
      value
    }
  }

  /** The outcome of a `void` Java method that may throw. */
  datatype Outcome = Pass | Fail(error: Error)
}
