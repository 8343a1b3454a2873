/** The optional-value wrapper used throughout the model. */
module Wrappers {

  /** A value that may be absent: Python's `None` versus an actual result. */
  datatype Option<+T> = None | Some(value: T)
}
