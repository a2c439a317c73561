/** Optional values, for lookups and moves that may have no result. */
module Wrappers {

  datatype Option<+T> = None | Some(value: T)
}
