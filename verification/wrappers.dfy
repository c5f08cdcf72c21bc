/** Optional values, used for the engine's pending `NextState` slots and for
    lookups that can miss. */
module Wrappers {

  datatype Option<+T> = None | Some(value: T)

}
