/** Option and Result, the two failure-carrying shapes the model uses:
    Option for a Python value that may be None, Result for an operation
    that either returns or raises. */
module Wrappers {

  datatype Option<+T> = None | Some(value: T)

  datatype Result<+R, +E> = Success(value: R) | Failure(error: E)
}
