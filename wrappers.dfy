/** Optional values, standing for the nullable pointers and unset handles of the source. */
module Wrappers {
  datatype Option<+T> = None | Some(value: T)
}
