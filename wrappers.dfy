/** Optional values, used where the source has "no value" cases. */
module Wrappers {
  datatype Option<+T> = None | Some(value: T)
}
