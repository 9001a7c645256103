/** Option and Result, as the Rust crates use them. */
module Wrappers {

  datatype Option<+T> = None | Some(value: T)

  datatype Result<+T, +E> = Ok(value: T) | Err(error: E) {
    predicate IsFailure() {
      Err?
    }

    function PropagateFailure<U>(): Result<U, E>
      requires Err?
    {
      Err(error)
    }

    function Extract(): T
      requires Ok?
    {
      value
    }

    /** The value, or `e` whatever the failure was. */
    function OrError<F>(e: F): Result<T, F> {
      match this
      case Ok(v) => Ok(v)
      case Err(_) => Err(e)
    }
  }
}
