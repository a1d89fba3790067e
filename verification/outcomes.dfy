/** Failure-carrying values shared by every part of the model. */
module Outcomes {

  /** A value that may be absent: Python's `None` versus a present value. */
  datatype Option<+T> = None | Some(value: T)

  /** The outcome of a step that may raise: its value, or the text of the exception it raised. */
  datatype Attempt<+T> = Done(value: T) | Raised(error: string)
}
