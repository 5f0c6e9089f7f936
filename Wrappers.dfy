/** The optional-value datatype used across the model (an absent prop, a callback not made). */
module Wrappers {
  datatype Option<+T> = None | Some(value: T)
}
