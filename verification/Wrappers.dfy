/** Optional values: JavaScript's `null` (no previous snapshot, no thread target). */
module Wrappers {
  datatype Option<+T> = None | Some(value: T)
}
