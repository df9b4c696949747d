/** The two outcome types the engine's operations return: an optional value,
    and a value or the error the Python code would raise. */
module Outcome {
  datatype Option<+T> = None | Some(value: T)

  datatype Result<+T, +E> = Success(value: T) | Failure(error: E)
}
