/** The optional value that stands for a reference the source may leave null. */
module Wrappers {
  datatype Option<+T> = None | Some(value: T)
}
