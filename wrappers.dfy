/** Optional values, standing for Go's nil-able `*node` fields. */
module Wrappers {
  datatype Option<+T> = None | Some(value: T)
}
