/** The optional value returned by the lookups that may find nothing. */
module Wrappers {

  datatype Option<+T> = None | Some(value: T)
}
