/** Optional values, used wherever the source returns an `Option` or can panic
    on a missing index. */
module Wrappers {
  datatype Option<T> = None | Some(value: T)
}
