/** Option and Result values standing in for nullable pointers and thrown exceptions. */
module Wrappers {

  datatype Option<+T> = None | Some(value: T)

  /** `Err` carries the reason a C++ call threw. */
  datatype Result<+T, +E> = Ok(value: T) | Err(error: E)
}
