/** A value that may be missing: the second result of a Go map lookup, a nullable column, a nil pointer. */
module Wrappers {

  datatype Option<T> = None | Some(value: T)
}
