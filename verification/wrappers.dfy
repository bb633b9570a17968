/** The Option datatype the rest of the model uses for Python operations that may raise. */
module Wrappers {
  datatype Option<+T> = None | Some(value: T)
}
