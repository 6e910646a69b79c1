/** Optional values and results with an error, for the source's optional
    arguments, thrown errors and parse failures. */
module Wrappers {

  datatype Option<+T> = None | Some(value: T)

  datatype Result<+R, +E> = Success(value: R) | Failure(error: E)
}
