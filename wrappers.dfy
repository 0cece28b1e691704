/** Small optional-value and error-carrying datatypes shared by the model. */
module Wrappers {

  /** A value that may be missing (`undefined` in the source). */
  datatype Option<+T> = None | Some(value: T)

  /** Either a value or the message of the exception that replaced it. */
  datatype Result<+T> = Ok(value: T) | Err(message: string)

  /** How an awaited call ended: it returned, or it threw an error with this message. */
  datatype Completion = Normal | Thrown(message: string)
}
