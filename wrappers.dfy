/** Optional values and error-or-value results, the Dafny stand-ins for Go's nil
    values and `(value, error)` returns. */
module Wrappers {

  datatype Option<+T> = None | Some(value: T)

  datatype Result<+T, +E> = Success(value: T) | Failure(error: E)
}
