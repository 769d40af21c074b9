/** Optional values: JavaScript's null/undefined and PHP's null as `None`. */
module Wrappers {

  datatype Option<T> = None | Some(value: T)
}
