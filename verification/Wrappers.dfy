/** An optional value, shared by all parts. */
module Wrappers {
  datatype Option<+T> = None | Some(value: T)
}
