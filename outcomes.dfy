/** Failure-carrying datatypes shared by every module of the model. */
module Outcomes {

  /** A value that may be absent (JavaScript `undefined`/`null`). */
  datatype Option<+T> = None | Some(value: T)

  /** The outcome of an operation that may throw: `Err` carries the error's message. */
  datatype Result<+T> = Ok(value: T) | Err(error: string)

  /**
   * What a call into the document store (or another foreign collaborator) does
   * when the model runs it: succeed, or throw an error with the given message.
   * Store failures cannot be computed by the model, so callers pass them in.
   */
  datatype Fault = NoFault | Throws(message: string)
}
