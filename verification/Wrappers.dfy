/** The optional value used throughout the model for C++ null pointers and missing entries. */
module Wrappers {
  datatype Option<+T> = None | Some(value: T)
}
