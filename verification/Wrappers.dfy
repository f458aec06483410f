/** Values that may be missing, and calls that may raise. */
module Wrappers {
  datatype Option<T> = None | Some(value: T)

  /** `ValueError` stands for the source's exception of that name, whatever its message. */
  datatype Result<T> = Ok(value: T) | ValueError
}
