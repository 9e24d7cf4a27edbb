/** The optional value of a Python `None`-able result. */
module Wrappers {
  datatype Option<+T> = None | Some(value: T)
}
