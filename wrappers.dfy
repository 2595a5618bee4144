/** Outcome types shared by every module of the model. */
module Wrappers {
  datatype Option<+T> = None | Some(value: T)

  datatype Result<+T, +E> = Ok(value: T) | Err(error: E)

  /** The value `()` of the source's `Result<(), E>`. */
  datatype Unit = Unit
}
