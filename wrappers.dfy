/** Option and Result, the two failure-compatible wrappers the model uses for
    JavaScript's `undefined` and for rejected promises. */
module Wrappers {

  datatype Option<+T> = None | Some(value: T)

  datatype Result<+T, +E> = Ok(value: T) | Err(error: E)
}
