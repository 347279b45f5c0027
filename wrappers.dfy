/** Failure-carrying values used where the modelled code returns nothing or raises. */
module Wrappers {

  /** A value that may be absent: a missing file, a missing dictionary entry. */
  datatype Option<+T> = None | Some(value: T)

  /** The outcome of an operation that may raise: `Err` carries the exception's kind. */
  datatype Result<+T> = Ok(value: T) | Err(error: string)
}
