/** Failure-carrying result types shared by every module of the model. */
module Wrappers {

  datatype Option<+T> = None | Some(value: T)

  /** A value or the reason there is none, as core::Result in the engine. */
  datatype Result<+T, +E> = Ok(value: T) | Err(error: E)
}
