/** Failure-carrying values shared by the model's modules. */
module Wrappers {

  /** A Python argument that may be `None`. */
  datatype Option<+T> = None | Some(value: T)

  /** The value of a Python call: a result, or the exception it raises. */
  datatype Result<+T, +E> = Ok(value: T) | Err(error: E)
}
