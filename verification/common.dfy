/** Option and Result, the two wrappers the rest of the model uses for Python's `None` and raised exceptions. */
module Common {

  datatype Option<+T> = None | Some(value: T)

  /** `Failure(error)` stands for an exception raised with message `error`. */
  datatype Result<+R, +E> = Success(value: R) | Failure(error: E)
}
