/** Option and Result values standing in for Python's `None` and for the
    operators' early `CANCELLED` returns. */
module Wrappers {

  datatype Option<+T> = None | Some(value: T)

  datatype Result<+R, +E> = Ok(value: R) | Err(error: E)
}
