/** Values for the source's optional arguments, raised exceptions and returned results. */
module Results {

  datatype Option<+T> = None | Some(value: T)

  /** A returned value, or the exception raised in its place. Works with `:-`. */
  datatype Result<+T, +E> = Success(value: T) | Failure(error: E) {
    predicate IsFailure() {
      Failure?
    }

    function PropagateFailure<U>(): Result<U, E>
      requires Failure?
    {
      Failure(error)
    }

    function Extract(): T
      requires Success?
    {
      value
    }
  }
}
