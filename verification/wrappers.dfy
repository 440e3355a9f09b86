/** Option, the stand-in for Go's nil-able pointers and its "comma ok" lookups. */
module Wrappers {

  datatype Option<+T> = None | Some(value: T)
}
