/** Optional values, shared by the report and catalog modules. */
module Wrappers {
  datatype Option<T> = None | Some(value: T)
}
