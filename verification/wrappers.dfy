/** Option and Result, the two failure-carrying shapes the model uses for
    Rust's Option/Result and for Python's "None or value" returns. */
module Wrappers {

  datatype Option<+T> = None | Some(value: T) {
    function UnwrapOr(default: T): T {
      match this
      case Some(v) => v
      case None => default
    }
  }

  datatype Result<+T, +E> = Ok(value: T) | Err(error: E)
}
