/** Failure-carrying wrappers shared by the whole model: a Go pointer or `error`
    that may be nil becomes an `Option`, and a Go `(value, error)` pair becomes a
    `Result` whose failure is the error's text. */
module Basics {

  datatype Option<+T> = None | Some(value: T)

  datatype Result<+T> = Ok(value: T) | Err(msg: string)
}
