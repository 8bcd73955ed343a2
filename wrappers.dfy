/** The optional value that stands for Python's `None` results and keys. */
module Wrappers {
  datatype Option<+T> = None | Some(value: T)
}
