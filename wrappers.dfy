/** Failure-carrying values: the rules engine reports a rejected move as a
    value instead of raising an exception. */
module Wrappers {

  datatype Option<+T> = None | Some(value: T)

  datatype Result<+R, +E> = Success(value: R) | Failure(error: E)
}
