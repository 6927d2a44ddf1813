/** Values that may be missing, and calls that may raise. */
module Wrappers {
  datatype Option<T> = None | Some(value: T)

  datatype Result<T> = Raised | Returned(value: T)
}
