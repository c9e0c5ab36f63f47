/** Optional values, for the C code's NULLs and "not assigned" results. */
module Wrappers {

  datatype Option<+T> = None | Some(value: T)
}
