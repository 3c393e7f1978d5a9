/** Option and Result, the failure-carrying values used across the model. */
module Wrappers {

  datatype Option<+T> = None | Some(value: T)

  /** A computation that either yields a value or fails with an error message,
      as a JavaScript `throw` does. */
  datatype Result<+T> = Ok(value: T) | Err(error: string)
}
