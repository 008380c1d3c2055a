/** Optional values: a nullable column, a missing request field, a failed lookup. */
module Wrappers {
  datatype Option<+T> = None | Some(value: T)
}
