/** Optional values: a column that may be null, a join that may find no row,
    a cache key that may be absent. */
module Wrappers {

  datatype Option<+T> = None | Some(value: T)
}
