/** Failure-carrying values that replace the exceptions and `null` returns of the
    recognizer: every scanner and parser step returns one of these instead of
    throwing. */
module Results {

  /** A value that may be absent (`null` in the source). */
  datatype Option<+T> = None | Some(value: T)

  /** Either a computed value or the error that stopped the computation. */
  datatype Result<+T, +E> = Success(value: T) | Failure(error: E) {

    predicate IsFailure() {
      Failure?
    }

    function PropagateFailure<U>(): Result<U, E>
      requires Failure?
    {
      Failure(error)
    }

    function Extract(): T
      requires Success?
    {
      value
    }
  }
}
