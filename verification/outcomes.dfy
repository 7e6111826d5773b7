/** Failure-carrying values used throughout the model. Every failure of the
    engine is a panic whose payload is a message string, so errors are strings. */
module Outcomes {

  /** An optional value. */
  datatype Option<+T> = None | Some(value: T)

  /** Either a value or the message a failed operation reports. */
  datatype Result<+T> = Ok(value: T) | Err(message: string)
}
