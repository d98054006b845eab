/** Python's `None`-or-value, used for optional event fields and results. */
module Wrappers {

  datatype Option<+T> = None | Some(value: T)
}
