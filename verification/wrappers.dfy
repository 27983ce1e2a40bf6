/** Optional values, standing for Go's nil-able pointers, slices, maps and errors. */
module Wrappers {

  datatype Option<+T> = None | Some(value: T)
}
