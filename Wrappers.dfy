/** Optional values and success-or-error results, shared by every module of the model. */
module Wrappers {

  /** A value that may be absent: JavaScript's `undefined`/`null`, or `NaN` for a number. */
  datatype Option<+T> = None | Some(value: T)

  /** The outcome of a computation that may throw: its value, or the message of the thrown error. */
  datatype Result<+T> = Ok(value: T) | Err(message: string)
}
