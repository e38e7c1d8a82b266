/** Optional values, and results that either hold a value or the Python
    exception the driver raises. */
module Wrappers {

  datatype Option<T> = None | Some(value: T)

  /** The exceptions the drivers raise or run into. */
  datatype Error = ValueError | RuntimeError | NameError | AttributeError | IndexError

  datatype Result<T> = Success(value: T) | Failure(error: Error)
}
