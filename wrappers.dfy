/** Failure-carrying results used for the SDK's thrown errors. */
module Wrappers {

  datatype Option<+T> = None | Some(value: T)

  /** `Ok` is a normal return; `Err` is a thrown error. */
  datatype Result<+T, +E> = Ok(value: T) | Err(error: E)
}
