/** Optional values, standing in for Go's nil pointers and for parsers that may fail. */
module Wrappers {

  datatype Option<+T> = None | Some(value: T)
}
