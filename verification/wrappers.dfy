/** Option and Result, the two failure-carrying shapes the model needs:
    `Option` for JavaScript's `T | undefined` / `T | null`, `Result` for a
    call that either returns a value or throws. */
module Wrappers {

  datatype Option<+T> = None | Some(value: T)

  datatype Result<+R, +E> = Success(value: R) | Failure(error: E)
}
