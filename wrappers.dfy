/** Option and Result types shared by every module of the model. */
module Wrappers {

  datatype Option<+T> = None | Some(value: T)

  /** The outcome of an operation that can fail, as Swift's `throws` does. */
  datatype Result<+T, +E> = Ok(value: T) | Err(error: E)
}
