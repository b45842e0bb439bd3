/** Failure-carrying datatypes shared by every module of the model. */
module Wrappers {

  datatype Option<+T> = None | Some(value: T) {
    function GetOr(default: T): T {
      match this
      case Some(v) => v
      case None => default
    }
  }

  /** Rust's `Result<T, E>`. */
  datatype Result<+T, +E> = Ok(value: T) | Err(error: E)

  /** How a call in the source ends: it returns a value, or the thread panics
      with a message (an `unwrap` on `None`/`Err`, an explicit `panic!`, a
      slice index out of range). */
  datatype Outcome<+T> = Returned(value: T) | Panicked(message: string)

  /** Message of `Option::unwrap` on `None`. */
  const UnwrapNone := "called `Option::unwrap()` on a `None` value"

  /** Message prefix of `Result::unwrap` on `Err`. */
  const UnwrapErr := "called `Result::unwrap()` on an `Err` value"
}
