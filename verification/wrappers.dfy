/** Optional values: Go's nil error / nil pointer is None. */
module Wrappers {

  datatype Option<+T> = None | Some(value: T)
}
