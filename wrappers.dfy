/** Option and Result: the model's stand-ins for `undefined`/`null` and for a thrown `Error`. */
module Wrappers {

  /** A value that may be absent (`undefined` or `null` in the source). */
  datatype Option<+T> = None | Some(value: T)

  /** The outcome of an operation that either returns a value or throws an `Error` carrying `message`. */
  datatype Result<+T> = Ok(value: T) | Err(message: string)
}
