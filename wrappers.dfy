/** The optional value used for "a command is sent, or nothing is". */
module Wrappers {
  datatype Option<+T> = None | Some(value: T)
}
