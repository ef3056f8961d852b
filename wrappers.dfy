/** Optional values and results with an error, used for the handler's
    optional body fields and for every call that can fail. */
module Wrappers {

  datatype Option<+T> = None | Some(value: T)

  datatype Result<+T, +E> = Success(value: T) | Failure(error: E)
}
