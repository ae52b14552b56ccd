/** Failure-carrying values used where the source throws or may find nothing. */
module Wrappers {

  datatype Option<+T> = None | Some(value: T)

  /** Ok carries the value, Err the reason the operation threw. */
  datatype Result<+T, +E> = Ok(value: T) | Err(error: E)
}
