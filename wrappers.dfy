/** Optional values and results shared by every module of the model. */
module Wrappers {

  /** Rust's `Option` and Python's "value or nothing". */
  datatype Option<+T> = None | Some(value: T)

  /** A value, or the error (a Python exception, a Rust panic) that stopped the computation. */
  datatype Result<+T, +E> = Ok(value: T) | Err(error: E)
}
