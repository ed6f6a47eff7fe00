/** An optional value: the model's counterpart of Python's `None`. */
module Wrappers {
  datatype Option<+T> = None | Some(value: T)
}
