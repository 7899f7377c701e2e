/** Optional values, used for the source's `None` results and unset fields. */
module Wrappers {

  datatype Option<+T> = None | Some(value: T)
}
