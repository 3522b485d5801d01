/** Optional values, and the error results that the stores return. */
module Outcomes {

  datatype Option<+T> = None | Some(value: T)

  /** A protocol's result; usable with `:-`. */
  datatype Result<+T, +E> = Ok(value: T) | Err(error: E) {

    predicate IsFailure() {
      Err?
    }

    function PropagateFailure<U>(): (r: Result<U, E>)
      requires Err?
      ensures r == Err(error)
    {
      Err(error)
    }

    function Extract(): T
      requires Ok?
    {
      value
    }
  }

  /** A guard: it passes, or it ends the protocol with an error. */
  datatype Guard<+E> = Pass | Refuse(error: E) {

    predicate IsFailure() {
      Refuse?
    }

    function PropagateFailure<U>(): (r: Result<U, E>)
      requires Refuse?
      ensures r == Err(error)
    {
      Err(error)
    }
  }

  function Need<E>(condition: bool, error: E): Guard<E> {
    if condition then Pass else Refuse(error)
  }
}
