/** Option and Result, used wherever the Ruby code returns nil or raises. */
module Wrappers {

  datatype Option<+T> = None | Some(value: T)

  /** Ok carries the value a Ruby method returns; Err the exception it raises. */
  datatype Result<+T, +E> = Ok(value: T) | Err(error: E) {
    predicate IsFailure() { Err? }

    function PropagateFailure<U>(): Result<U, E>
      requires Err?
    {
      Err(error)
    }

    function Extract(): T
      requires Ok?
    {
      value
    }
  }
}
