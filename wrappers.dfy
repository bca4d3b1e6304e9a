/** Option and Result values for the source's nullable fields and thrown errors. */
module Wrappers {

  /** A value that may be missing (`string | null` in the source). */
  datatype Option<+T> = None | Some(value: T)

  /** The outcome of a step that may throw: a value, or the thrown error's message. */
  datatype Result<+R> = Ok(value: R) | Err(message: string)
}
