/** The two failure-carrying datatypes used throughout: a missing value and a failed operation. */
module Wrappers {

  datatype Option<+T> = None | Some(value: T)

  /** The result of an operation that can fail; error texts are not modelled. */
  datatype Result<+T> = Ok(value: T) | Err
}
