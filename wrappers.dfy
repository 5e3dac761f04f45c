/** Optional values, standing for the optional (possibly `undefined`)
    properties of the route options object. */
module Wrappers {

  datatype Option<+T> = None | Some(value: T)
}
