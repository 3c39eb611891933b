/** Optional values and results with an error: the model's `X | None` and its exceptions. */
module Wrappers {
  datatype Option<+T> = None | Some(value: T)

  datatype Result<+T, +E> = Ok(value: T) | Err(error: E) {
    predicate IsFailure() {
      Err?
    }

    function PropagateFailure<U>(): Result<U, E>
      requires Err?
    {
      Err(error)
    }

    function Extract(): T
      requires Ok?
    {
      value
    }
  }

  datatype Outcome<+E> = Met | Unmet(error: E) {
    predicate IsFailure() {
      Unmet?
    }

    function PropagateFailure<U>(): Result<U, E>
      requires Unmet?
    {
      Err(error)
    }
  }

  function Need<E>(condition: bool, error: E): Outcome<E> {
    if condition then Met else Unmet(error)
  }
}
