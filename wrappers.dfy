/** Failure-carrying results: the model's stand-in for `DX_ASSERT`, which in the
    source breaks into the debugger instead of returning an error. */
module Wrappers {

  datatype Option<+T> = None | Some(value: T)

  datatype Result<+T, +E> = Ok(value: T) | Err(error: E) {
    predicate IsFailure() { Err? }
  }

  datatype Outcome<+E> = Pass | Fail(error: E)
}
