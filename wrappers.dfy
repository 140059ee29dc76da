/** Option and Result, used for the values the script leaves unset and the
    exceptions it raises. */
module Wrappers {
  datatype Option<+T> = None | Some(value: T)

  datatype Result<+R, +E> = Ok(value: R) | Err(error: E)
}
