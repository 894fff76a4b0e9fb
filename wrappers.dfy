/** Option and Result, used for Ruby's nil-or-value options and for raised errors. */
module Wrappers {

  datatype Option<+T> = None | Some(value: T)

  /** `Err(msg)` stands for a raised `LimaError` carrying `msg`. */
  datatype Result<+R, +E> = Ok(value: R) | Err(error: E)
}
