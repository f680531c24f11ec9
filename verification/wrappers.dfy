/** Optional values, standing in for the nullable pointers of the renderer. */
module Wrappers {

  datatype Option<+T> = None | Some(value: T)
}
