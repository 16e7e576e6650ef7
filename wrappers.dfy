/** Optional values and the outcome of an operation that may throw. */
module Wrappers {

  /** A value that may be absent (a null handle, a search that found nothing). */
  datatype Option<+T> = None | Some(value: T)

  /** Either the value an operation returns, or the message of the
      std::runtime_error it throws. */
  datatype Result<+T> = Ok(value: T) | Err(msg: string)
}
