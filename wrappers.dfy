/** Optional values and results, standing in for JavaScript's null/undefined and for
    promises that either resolve with a value or reject with an error. */
module Wrappers {

  datatype Option<+T> = None | Some(value: T)

  datatype Result<+R, +E> = Success(value: R) | Failure(error: E)
}
