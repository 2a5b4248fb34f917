/** Failure-carrying values shared by every module of the model: Go's `(T, error)`
    returns become `Result`, nil-able references and `(v, ok)` lookups become `Option`. */
module Wrappers {

  datatype Option<+T> = None | Some(value: T)

  datatype Result<+T, +E> = Ok(value: T) | Err(error: E)
}
