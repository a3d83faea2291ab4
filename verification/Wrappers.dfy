/** Optional values: the model of kf::Option and of a null pointer. */
module Wrappers {
  datatype Option<+T> = None | Some(value: T)
}
