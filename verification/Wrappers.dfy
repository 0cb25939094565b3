/** The value that may be missing, shared by all components. */
module Wrappers {
  datatype Option<+T> = None | Some(value: T)
}
