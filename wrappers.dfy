/** Optional values: the source's `None` and the failure of an operation that raises. */
module Wrappers {
  datatype Option<+T> = None | Some(value: T)
}
