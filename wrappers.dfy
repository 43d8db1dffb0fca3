/** Optional values, standing in for Go's nil-able references and error values. */
module Wrappers {

  datatype Option<+T> = None | Some(value: T)

}
