/** The optional value used wherever the tray code compares against `None`. */
module Wrappers {
  datatype Option<+T> = None | Some(value: T)
}
