/** Failure-carrying wrappers shared by every module of the model. */
module Wrappers {

  /** A value that may be missing: an absent query field or request-body field, a lookup without a match. */
  datatype Option<+T> = None | Some(value: T)

  /** The outcome of a controller: a response value, or the error the controller hands to `next`. */
  datatype Result<+R, +E> = Ok(value: R) | Err(error: E)
}
