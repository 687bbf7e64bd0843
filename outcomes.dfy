/** Failure-compatible wrappers and the Python exceptions the script can raise. */
module Outcomes {

  /** An optional value (Python's `None` versus a value). */
  datatype Option<+T> = None | Some(value: T)

  /** The uncaught exceptions that end the script. */
  datatype ScriptError =
    | KeyError(key: string)   // a dict indexed with a key it does not hold
    | TypeError               // a non-dict subscripted by a string, or `None` iterated
    | NameError(name: string) // a variable read before any assignment bound it

  /** The value of an expression, or the exception its evaluation raised. */
  datatype Result<+T> = Ok(value: T) | Err(error: ScriptError) {
    predicate IsFailure() {
      Err?
    }

    function PropagateFailure<U>(): Result<U>
      requires Err?
    {
      Err(error)
    }

    function Extract(): T
      requires Ok?
    {
      value
    }
  }
}
