/** Python's `None`-or-value, used for a node's resolved value. */
module Wrappers {

  datatype Option<+T> = None | Some(value: T)
}
