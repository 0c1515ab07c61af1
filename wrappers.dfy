/** Option and Result datatypes shared by the modules. */
module Wrappers {

  datatype Option<+T> = None | Some(value: T)

  /** A value, or the error the original raises as a ValueError. */
  datatype Result<+T, +E> = Ok(value: T) | Err(error: E)
}
