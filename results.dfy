/** Failure-carrying values shared by the modules: a use case or repository
    call that throws in the source returns a `Failure` or `Fail` here. */
module Results {

  datatype Option<+T> = None | Some(value: T)

  /** A call that either produces a value or raises an error. */
  datatype Result<+T, +E> = Success(value: T) | Failure(error: E)

  /** A call that produces nothing on success, or raises an error. */
  datatype Outcome<+E> = Pass | Fail(error: E)
}
