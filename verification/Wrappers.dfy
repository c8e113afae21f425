/** The optional value used throughout the model for nullable columns and fields. */
module Wrappers {
  datatype Option<+T> = None | Some(value: T)
}
