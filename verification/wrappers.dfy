/** Optional values, used for the page of the outstanding fetch and for parse results. */
module Wrappers {

  datatype Option<+T> = None | Some(value: T)
}
