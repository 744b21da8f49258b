/** The nullable values of the source: `null` is `None`. */
module Wrappers {
  datatype Option<+T> = None | Some(value: T)
}
