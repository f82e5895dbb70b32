/** Result types shared by the modules of the model. */
module Wrappers {

  datatype Option<+T> = None | Some(value: T)

  /** What a call of the library comes to: a value, one of its own errors, or a
      panic (an index out of range, an `unwrap` of nothing, a failed `assert!`,
      an unsigned subtraction below zero).
   */
  datatype Outcome<+T, +E> = Ok(value: T) | Err(error: E) | Panic
}
