/** Optional values and results that carry an error, used for the summary's
    optional breakdown and for reading the storage file. */
module Wrappers {

  datatype Option<+T> = None | Some(value: T)

  datatype Result<+R, +E> = Success(value: R) | Failure(error: E)
}
