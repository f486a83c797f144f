/** The two result shapes the modelled code returns: a value that may be absent, and a
    value or an error. */
module Wrappers {

  datatype Option<+T> = None | Some(value: T)

  /** `:-` on a result returns its error to the caller. */
  datatype Result<+T, +E> = Ok(value: T) | Err(error: E) {
    predicate IsFailure() {
      Err?
    }

    function PropagateFailure<U>(): Result<U, E>
      requires Err?
    {
      Err(error)
    }

    function Extract(): T
      requires Ok?
    {
      value
    }
  }
}
