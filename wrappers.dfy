/** The result type used across the model. */
module Wrappers {
  /** The outcome of a step that can raise: a value, or the error it raised. */
  datatype Result<+T, +E> = Success(value: T) | Failure(error: E)
}
