/** Optional values and results of calls that may throw. */
module Wrappers {

  /** A Kotlin nullable value: `null` is None. */
  datatype Option<+T> = None | Some(value: T)

  /** The outcome of a Kotlin call: a returned value, or the message of the exception it threw. */
  datatype Result<+T> = Ok(value: T) | Err(error: string)
}
