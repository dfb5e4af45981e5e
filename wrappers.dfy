/** Option and the fault outcome shared by every module of the model. */
module Wrappers {

  datatype Option<T> = None | Some(value: T) {
    /** `x ?? fallback` in C#: the value, or the fallback when there is none. */
    function GetOr(fallback: T): T {
      if Some? then value else fallback
    }
  }

  /** The exceptions that the weaver core raises but never catches; each one
      ends the whole pass. */
  datatype Fault =
    | StackOverflow   // unbounded (or too deep) recursion
    | InvalidCast     // an unchecked C# cast that does not hold
    | NullReference   // a member access on null
    | NullArgument    // a Dictionary lookup with a null key (ArgumentNullException)
    | DuplicateKey    // Dictionary.Add on a key already present
    | IndexOutOfRange // a list index past its end (ArgumentOutOfRangeException)

  /** A computation that either finishes with a value or is aborted by a fault. */
  datatype Outcome<T> = Done(value: T) | Abort(fault: Fault) {
    predicate IsFailure() {
      Abort?
    }

    function PropagateFailure<U>(): Outcome<U>
      requires Abort?
    {
      Abort(fault)
    }

    function Extract(): T
      requires Done?
    {
      value
    }
  }
}
