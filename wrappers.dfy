/** The optional value used for sprites that may have been removed. */
module Wrappers {
  datatype Option<+T> = None | Some(value: T)
}
