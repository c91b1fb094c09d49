/** Option, Result and Outcome: the failure-carrying shapes the Rust code expresses
    with `Option`, `Result<T, E>` and `Result<(), E>`. */
module Wrappers {

  datatype Option<+T> = None | Some(value: T)

  datatype Result<+T, +E> = Success(value: T) | Failure(error: E)

  /** A `Result<(), E>`: either the operation completed, or it failed with `error`. */
  datatype Outcome<+E> = Pass | Fail(error: E)
}
