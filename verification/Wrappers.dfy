/** The optional value used across the project, for the source's `None`. */
module Wrappers {
  datatype Option<+T> = None | Some(value: T)
}
