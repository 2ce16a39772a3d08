/** Failure-carrying results shared by the viewer model. */
module Wrappers {

  /** Either a value or an optional absence. */
  datatype Option<+T> = None | Some(value: T)

  /** Either a value or the reason it could not be computed. */
  datatype Result<+T, +E> = Ok(value: T) | Err(error: E)
}
