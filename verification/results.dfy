/**
  Failure-carrying values for the modelled Python code. Every exception the
  modelled methods raise or catch becomes an `Error`; a call that may raise
  returns a `Result`.
 */
module Results {

  /** The Python exception classes the modelled code raises or catches. */
  datatype Error =
    | IndexError         // an index outside a sequence or a time axis
    | ValueError         // `np.min` of an empty array, a failed broadcast
    | KeyError           // a missing key of the `plotted` dictionary
    | AttributeError     // a missing attribute or method
    | TypeError          // arithmetic on, or indexing of, `None`
    | AssertionError     // a failed `assert`
    | UnboundLocalError  // a local read on a path that never assigned it
    | ZeroDivisionError  // float division by zero

  /** Python's `None` or a value. */
  datatype Option<+T> = None | Some(value: T) {

    /** The value, or `default` for `None`. */
    function GetOr(default: T): T {
      match this
      case Some(v) => v
      case None => default
    }
  }

  /** A returned value, or the exception the call raised. */
  datatype Result<+T> = Ok(value: T) | Err(error: Error) {

    predicate IsFailure() {
      Err?
    }

    function PropagateFailure<U>(): Result<U>
      requires Err?
    {
      Err(error)
    }

    function Extract(): T
      requires Ok?
    {
      value
    }
  }
}
