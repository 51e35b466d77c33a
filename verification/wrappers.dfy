/** Failure-carrying values: `Option` for a Python call that may raise
    `ValueError`, `Result` for the outcome of the whole generation. */
module Wrappers {

  datatype Option<+T> = None | Some(value: T)

  datatype Result<+R, +E> = Success(value: R) | Failure(error: E)
}
