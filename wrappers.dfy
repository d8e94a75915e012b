/** Optional values: a JSON field that may be missing, a Map lookup that may find nothing. */
module Wrappers {

  datatype Option<+T> = None | Some(value: T)
}
