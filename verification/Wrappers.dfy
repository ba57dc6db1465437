/** The optional value used for absent files, absent objects and partial reads. */
module Wrappers {
  datatype Option<+T> = None | Some(value: T)
}
