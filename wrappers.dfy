/** Optional values: an absent (or JSON null) request field, a NULL column. */
module Wrappers {

  datatype Option<+T> = None | Some(value: T)
}
