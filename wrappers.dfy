/** The optional value used for JSON fields that may be missing or null. */
module Wrappers {
  datatype Option<+T> = None | Some(value: T)
}
