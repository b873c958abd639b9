/** Optional values and results shared by every module of the model. */
module Wrappers {
  /** A JavaScript value that may be `null`/`undefined`, or a lookup that may miss. */
  datatype Option<T> = None | Some(value: T)

  /** An operation that either yields a value or reports the error message it would show or throw. */
  datatype Result<T> = Ok(value: T) | Err(error: string)
}
