/** Option and Outcome values used across the model for "missing" and for raised errors. */
module Wrappers {

  datatype Option<+T> = None | Some(value: T)

  /** The result of a step that either completes or raises an error. */
  datatype Outcome<+E> = Pass | Fail(error: E)
}
