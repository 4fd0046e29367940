/** Optional values and success/failure results, used where the source returns
    `undefined` or reports an error through a dialog. */
module Wrappers {

  datatype Option<+T> = None | Some(value: T)

  datatype Result<+T, +E> = Success(value: T) | Failure(error: E)
}
