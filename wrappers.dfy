/** Optional values: a JavaScript value that may be `null` or missing. */
module Wrappers {

  datatype Option<T> = None | Some(value: T)
}
