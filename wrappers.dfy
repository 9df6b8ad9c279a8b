/** An optional value and the outcome of a check, shared by every module of the model. */
module Wrappers {

  /** A value that may be absent: JavaScript's `undefined`/`null` or a missing row. */
  datatype Option<+T> = None | Some(value: T)

  /** The outcome of a check that either passes or fails with a message. */
  datatype Outcome<+E> = Pass | Fail(error: E)
}
