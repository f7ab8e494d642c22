/** The optional result several kernel routines return. */
module Wrappers {
  datatype Option<+T> = None | Some(value: T)
}
