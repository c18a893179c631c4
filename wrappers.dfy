/** Failure-compatible wrappers and the Python exception kinds the model raises. */
module Wrappers {

  datatype Option<+T> = None | Some(value: T) {
    predicate IsFailure() { None? }

    function PropagateFailure<U>(): Option<U>
      requires None?
    {
      None
    }

    function Extract(): T
      requires Some?
    {
      value
    }
  }

  /** A computation that either returns a value or raises a Python exception. */
  datatype Result<+T> = Ok(value: T) | Err(error: Exception)

  /** The exceptions the modelled code can raise. */
  datatype Exception =
    | TypeError       // strptime given a value that is not a str
    | ValueError      // strptime given a str that does not match the format
    | AttributeError  // isoformat() called on a value that is not a datetime
}
