/** Option and Result, the two wrappers the model needs for Python's `None`
    and for handlers that either produce a value or fail with an HTTP error. */
module Wrappers {

  datatype Option<+T> = None | Some(value: T)

  datatype Result<+R, +E> = Success(value: R) | Failure(error: E)
}
