/** Values shared by several components. */
module Wrappers {
  datatype Option<+T> = None | Some(value: T)
}
