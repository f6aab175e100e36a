/** Optional values, used for map lookups that may miss and for error results. */
module Wrappers {
  datatype Option<+T> = None | Some(value: T)
}
