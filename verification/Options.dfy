/** Optional values, for lookups that may find nothing and readings that may be absent. */
module Options {
  datatype Option<+T> = None | Some(value: T)
}
