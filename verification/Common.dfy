/** Result types shared by the modules that model the service. */
module Common {

  datatype Option<+T> = None | Some(value: T)

  /** The (value, error) pair of a Go function: a value or an error, never both. */
  datatype Result<+T, +E> = Ok(value: T) | Err(error: E) {
    predicate IsFailure() {
      Err?
    }

    function PropagateFailure<U>(): (r: Result<U, E>)
      requires Err?
    {
      Err(error)
    }

    function Extract(): T
      requires Ok?
    {
      value
    }
  }
}
