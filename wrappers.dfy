/** Optional values: a pointer that may be NULL in the session code. */
module Wrappers {

  datatype Option<+T> = None | Some(value: T)
}
