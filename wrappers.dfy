/** Option, Result and Outcome values for the source's `None` values and raised exceptions. */
module Wrappers {

  /** A Python value that may be `None`. */
  datatype Option<T> = None | Some(value: T)

  /** A computed value, or the message of the exception the source raises instead. */
  datatype Result<T> = Ok(value: T) | Err(error: string)

  /** A step that either completes or raises with a message. */
  datatype Outcome = Pass | Fail(error: string)
}
