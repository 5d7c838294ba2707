/** Optional values: a missing row list, a missing user, an absent error. */
module Wrappers {
  datatype Option<+T> = None | Some(value: T)
}
