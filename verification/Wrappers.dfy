/** An optional value: a nullable column, or an argument that may be left out. */
module Wrappers {
  datatype Option<+T> = None | Some(value: T)
}
