/** Optional values and results with an error message. */
module Wrappers {

  /** A value that may be absent: JavaScript's `undefined`/`null`, or a missing JSON field. */
  datatype Option<+T> = None | Some(value: T)

  /** The outcome of a step that can throw: a value, or the message of the error thrown. */
  datatype Result<+T> = Ok(value: T) | Err(error: string)
}
