/** Option and Result, standing for a value that may be missing (a pandas NaN,
    an absent metadata key) and for an operation that may raise. */
module Wrappers {

  datatype Option<+T> = None | Some(value: T)

  datatype Result<+T, +E> = Success(value: T) | Failure(error: E)
}
