/** Failure-carrying datatypes used across the model in place of Rust's
    `Option` and `Result`. */
module Wrappers {

  datatype Option<+T> = None | Some(value: T) {

    /** The stored value, or `default` when there is none (Rust's `unwrap_or`). */
    function GetOr(default: T): T {
      match this
      case Some(v) => v
      case None => default
    }
  }

  /** A computation that yields a value or an error. */
  datatype Result<+T, +E> = Ok(value: T) | Err(error: E)

  /** A computation that yields no value: it passes or fails with an error
      (Rust's `Result<(), E>`). */
  datatype Outcome<+E> = Pass | Fail(error: E)
}
