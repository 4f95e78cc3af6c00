/** Python exception kinds that the modelled code can raise, and the
    failure-compatible result type used in place of raising them. */
module Errors {

  datatype Error =
    | KeyError           // dict lookup of a missing key
    | IndexError         // list or string index out of range
    | ValueError         // int() of a non-numeric string, or a bad unpacking
    | ZeroDivisionError  // division by a zero count
    | AttributeError     // `.get` called on a JSON value that is not an object
    | SystemExit         // an explicit `raise SystemExit`

  datatype Result<+T> = Ok(value: T) | Err(error: Error) {
    predicate IsFailure() {
      Err?
    }

    function PropagateFailure<U>(): Result<U>
      requires Err?
    {
      Err(error)
    }

    function Extract(): T
      requires Ok?
    {
      value
    }
  }

  datatype Option<+T> = None | Some(value: T) {
    function GetOr(default: T): T {
      match this
      case Some(v) => v
      case None => default
    }
  }
}
