/** Failure-carrying wrappers shared by the whole model. */
module Common {

  datatype Option<+T> = None | Some(value: T)

  /** A value, or the exception the dashboard code would raise instead. */
  datatype Result<+T, +E> = Ok(value: T) | Err(error: E) {
    predicate IsFailure() { Err? }

    function PropagateFailure<U>(): Result<U, E>
      requires Err?
    {
      Err(error)
    }

    function Extract(): T
      requires Ok?
    {
      value
    }
  }
}
