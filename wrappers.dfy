/** Option and Result: the "row or nothing" of a single-row query and the
    "value or thrown error" of an awaited query. */
module Wrappers {

  datatype Option<+T> = None | Some(value: T)

  datatype Result<+T, +E> = Success(value: T) | Failure(error: E)
}
