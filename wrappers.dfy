/** An optional value: the playlist yields `None` where the source yields `undefined`. */
module Wrappers {
  datatype Option<T> = None | Some(value: T)
}
