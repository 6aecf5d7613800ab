/** Failure-carrying datatypes shared by the whole model. */
module Wrappers {

  datatype Option<T> = None | Some(value: T)

  /** Rust's `Result`: a returned value or an error. */
  datatype Result<T, E> = Ok(value: T) | Err(error: E)

  /** Why a Rust task aborts instead of returning. */
  datatype Panic =
    | Todo        // `todo!()`
    | UnwrapNone  // `.unwrap()` on `None`
    | UnwrapErr   // `.unwrap()` on `Err`

  /** How a call ends: it returns a value, or it panics. */
  datatype Exit<T> = Return(value: T) | Panicked(panic: Panic)
}
