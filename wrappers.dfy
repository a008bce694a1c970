/** Optional values: PHP's nullable returns (`?array`, `?string`) become Option. */
module Wrappers {
  datatype Option<+T> = None | Some(value: T)
}
