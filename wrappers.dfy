/** Optional values, used for the single-slot credential queue. */
module Wrappers {
  datatype Option<+T> = None | Some(value: T)
}
