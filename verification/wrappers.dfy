/** Option and Result, the shapes used for Go's "value, ok" and "value, error" returns. */
module Wrappers {
  datatype Option<+T> = None | Some(value: T)

  datatype Result<+T> = Ok(value: T) | Err
}
