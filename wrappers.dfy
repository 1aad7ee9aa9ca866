/** Optional values, standing in for std::optional and for nullable results. */
module Wrappers {

  datatype Option<+T> = None | Some(value: T)
}
