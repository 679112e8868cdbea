/** Optional values (Java's `null`) and results that may carry a thrown exception. */
module Wrappers {
  datatype Option<T> = None | Some(value: T)

  /** `Err` stands for an exception the Java code lets escape (for example a NumberFormatException). */
  datatype Result<T> = Ok(value: T) | Err(error: string)
}
