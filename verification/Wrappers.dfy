/** Failure-carrying results shared by every module of the model. */
module Wrappers {

  /** A value that may be absent: a missing row, an absent map key. */
  datatype Option<+T> = None | Some(value: T)

  /** A Go (value, error) pair of which exactly one is meaningful. */
  datatype Result<+T, +E> = Ok(value: T) | Err(error: E)
}
