// Option and Result: a Python value that may be missing (NaN) and a call
// that may raise instead of returning.
module Wrappers {

  datatype Option<+T> = None | Some(value: T)

  datatype Result<+R, +E> = Success(value: R) | Failure(error: E)
}
