/** Failure-compatible wrappers and the error conditions the settings engine raises. */
module Wrappers {

  datatype Option<+T> = None | Some(value: T) {
    function GetOr(default: T): T {
      match this
      case Some(v) => v
      case None => default
    }
  }

  /** The exceptions the C# code throws, by kind. */
  datatype Error =
    | ArgumentNull(parameter: string)   // ArgumentNullException / a failed IsNotNull check
    | NullReference                     // a member access on a null reference
    | InvalidCast                       // Convert.ChangeType to a type that strings do not convert to
    | FormatError                       // a string that does not parse as the target type
    | Overflow                          // a number outside the range of the target type
    | ArgumentError                     // Enum.Parse of a name that is not a member
    | DuplicateKey(key: string)         // Dictionary.Add of a key already present
    | InvalidOperation                  // Enumerable.First on an empty sequence

  datatype Result<+T> = Ok(value: T) | Err(error: Error) {
    predicate IsFailure() { Err? }
    function PropagateFailure<U>(): Result<U>
      requires Err?
    {
      Err(error)
    }
    function Extract(): T
      requires Ok?
    {
      value
    }
  }

  /** A result that carries no value. */
  datatype Outcome = Pass | Fail(error: Error) {
    predicate IsFailure() { Fail? }
    function PropagateFailure(): Outcome
      requires Fail?
    {
      this
    }
  }
}
