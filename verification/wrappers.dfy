/** The one optional type shared by every module: an empty or filled pointer, token or raw cell. */
module Wrappers {
  datatype Option<+T> = None | Some(value: T)
}
