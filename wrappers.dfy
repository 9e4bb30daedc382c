/** The optional value used wherever the source uses a nullable reference or a queue may be empty. */
module Wrappers {
  datatype Option<+T> = None | Some(value: T)
}
