/** Optional values, standing for C++ std::optional and for C# null. */
module Wrappers {

  datatype Option<+T> = None | Some(value: T)
}
