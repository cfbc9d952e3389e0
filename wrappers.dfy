/** Optional values, for the places where Ruby returns a value or nil. */
module Wrappers {

  datatype Option<+T> = None | Some(value: T)

}
