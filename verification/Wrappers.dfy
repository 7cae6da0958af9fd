/** Option and Result values, standing for the nil pointers and the error returns of the gateway. */
module Wrappers {

  datatype Option<+T> = None | Some(value: T)

  datatype Result<+R, +E> = Ok(value: R) | Err(error: E)
}
