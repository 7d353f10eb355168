/** Plain option and result types used across the model. */
module Wrappers {

  /** An optional value. */
  datatype Option<+T> = None | Some(value: T)

  /** Either a value or the error that a Python exception would have carried. */
  datatype Result<+R, +E> = Ok(value: R) | Err(error: E)
}
