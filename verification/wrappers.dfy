/** Optional values, used wherever the source yields `null`/`undefined` or nothing at all. */
module Wrappers {

  datatype Option<+T> = None | Some(value: T)
}
