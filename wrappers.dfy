/** Option and Outcome values used throughout the model. */
module Wrappers {

  datatype Option<+T> = None | Some(value: T)

  /** Pass, or Fail with the error that a Python `raise` would carry. */
  datatype Outcome<+E> = Pass | Fail(error: E)
}
