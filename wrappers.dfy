/** Option and Result, the shapes in which the model reports Go's
    `(value, error)` pairs and `(value, ok)` lookups. */
module Wrappers {

  datatype Option<+T> = None | Some(value: T)

  datatype Result<+R, +E> = Success(value: R) | Failure(error: E)
}
