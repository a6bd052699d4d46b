/** Option and Result values used by every other module. */
module Wrappers {

  /** A value that may be absent, in place of a NULL pointer. */
  datatype Option<+T> = None | Some(value: T)

  /** The outcome of an operation that can fail; usable with `:-`. */
  datatype Result<+T, +E> = Ok(value: T) | Err(error: E) {

    predicate IsFailure() {
      Err?
    }

    function PropagateFailure<U>(): Result<U, E>
      requires Err?
    {
      Err(error)
    }

    function Extract(): T
      requires Ok?
    {
      value
    }
  }
}
