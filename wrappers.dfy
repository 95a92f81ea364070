/** Failure-carrying values shared by the model: an optional value, and the
    outcome of a call that either returns a value or raises an error. */
module Wrappers {

  datatype Option<+T> = None | Some(value: T)

  /** `Ok(v)`: the call returned `v`; `Err(e)`: the call raised `e`. */
  datatype Result<+T, +E> = Ok(value: T) | Err(error: E)
}
