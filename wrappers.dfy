/** A value that may be absent: a nullable column, or an element that may not be found. */
module Wrappers {
  datatype Option<T> = None | Some(value: T)
}
