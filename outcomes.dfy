/** Values that stand for JavaScript's `null` and for the outcome of a promise. */
module Outcomes {

  /** A state slot that holds either `null` (None) or a value. */
  datatype Option<T> = None | Some(value: T)

  /** What a REST call resolves to: the payload of a fulfilled promise, or the
      error text carried by a rejected one. */
  datatype Response<T> = Ok(value: T) | Err(message: string)
}
