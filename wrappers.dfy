/** The optional value used wherever the app has `T | null` or an optional prop. */
module Wrappers {
  datatype Option<+T> = None | Some(value: T)
}
