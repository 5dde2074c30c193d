/** Optional values: a JSON `null`, an absent key or an absent list. */
module Wrappers {

  datatype Option<+T> = None | Some(value: T)
}
