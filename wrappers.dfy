/** Failure-carrying values used across the model: a Python call that may raise
    becomes a function or method returning one of these. */
module Wrappers {

  datatype Option<+T> = None | Some(value: T)

  /** The value a step computes, or the message of the exception it raises. */
  datatype Result<+T> = Ok(value: T) | Err(reason: string)

  /** A step that returns nothing, or the message of the exception it raises. */
  datatype Outcome = Pass | Fail(reason: string)
}
