/** The result type of what may fail, shared by the models. */
module Wrappers {
  datatype Option<+T> = None | Some(value: T)
}
