/** Optional values: SQL NULL, JavaScript null, Python None. */
module Wrappers {
  datatype Option<+T> = None | Some(value: T)
}
