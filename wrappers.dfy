/** Optional values and results shared by every module of the model. */
module Wrappers {

  /** A value that may be absent: JavaScript's `null`/`undefined`, or a missing form field. */
  datatype Option<+T> = None | Some(value: T)

  /** The outcome of an operation that can throw: a value, or what was thrown. */
  datatype Result<+T, +E> = Ok(value: T) | Err(error: E)

  /** What a failing JavaScript statement throws: an `Error` with its
    * `message`, or some other value, which has no message. */
  datatype Thrown = Error(message: string) | NonError
}
