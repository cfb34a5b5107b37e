/** Result and option types shared by the models. */
module Prelude {

  datatype Option<+T> = None | Some(value: T)

  /** A failure-compatible result, used with `:-` where the source uses `?`. */
  datatype Result<+T, +E> = Ok(value: T) | Err(error: E) {
    predicate IsFailure() {
      Err?
    }

    function PropagateFailure<U>(): Result<U, E>
      requires Err?
    {
      Err(error)
    }

    function Extract(): T
      requires Ok?
    {
      value
    }
  }
}
