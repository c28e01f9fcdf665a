/** Option and Result, the two wrappers the model uses for JavaScript's
    `undefined` and for exceptions that end a run. */
module Wrappers {

  /** A value that may be absent; `None` stands for JavaScript's `undefined`. */
  datatype Option<+T> = None | Some(value: T)

  /** The outcome of a stage that can throw. */
  datatype Result<+T, +E> = Ok(value: T) | Err(error: E)
}
