/** Failure-compatible wrappers shared by every module of the model. */
module Wrappers {

  /** An optional value: a query parameter or a dictionary entry that may be missing. */
  datatype Option<T> = None | Some(value: T)

  /** The outcome of a request or a library call: a value, or the error that the
      source reports (a 400 response body, or the name of an uncaught exception). */
  datatype Result<T> = Ok(value: T) | Err(error: string)
}
