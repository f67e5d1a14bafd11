/** Option and Result, for the lookups that may find nothing and the calls that may throw. */
module Wrappers {

  datatype Option<+T> = None | Some(value: T)

  datatype Result<+R, +E> = Success(value: R) | Failure(error: E)
}
