/** Option and Result datatypes used across the model. */
module Wrappers {

  /** A value that may be missing: PHP's `null` where the source tests for it. */
  datatype Option<+T> = None | Some(value: T)

  /** The outcome of an operation that may raise one of the plugin's exceptions. */
  datatype Result<+R, +E> = Ok(value: R) | Err(error: E)
}
