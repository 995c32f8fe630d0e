/** The optional value and the result type used throughout the model. Where
    the Rust code calls `unwrap()` on a parse that can fail, the model's parser
    returns `None` and its callers require `Some`. */
module Wrappers {

  datatype Option<+T> = None | Some(value: T) {

    function GetOr(default: T): T {
      match this
      case Some(v) => v
      case None => default
    }
  }

  /** Rust's `Result<T, E>`. */
  datatype Result<+T, +E> = Ok(value: T) | Err(error: E)
}
