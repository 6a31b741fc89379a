/** Option and Result: the model's stand-ins for `None` returns and raised exceptions. */
module Wrappers {

  datatype Option<+T> = None | Some(value: T)

  /** `Err` carries a short description of the exception the source raises. */
  datatype Result<+T> = Ok(value: T) | Err(msg: string)
}
