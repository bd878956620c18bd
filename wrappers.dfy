/** The optional-value datatype used for nullable fields and for "no result". */
module Wrappers {
  datatype Option<+T> = None | Some(value: T)
}
