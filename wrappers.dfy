/** The usual optional-value datatype, used for fallible collaborators and lookups. */
module Wrappers {

  datatype Option<+T> = None | Some(value: T)
}
