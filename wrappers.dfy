/** Option and Result, the two failure-carrying shapes used throughout the model. */
module Wrappers {

  datatype Option<+T> = None | Some(value: T)

  /** `Ok` carries a value; `Err` stands for a Python exception that ends the whole call. */
  datatype Result<+T, +E> = Ok(value: T) | Err(error: E)
}
