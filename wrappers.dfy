/** The optional value used for "no such row" and "no caller". */
module Wrappers {
  datatype Option<+T> = None | Some(value: T)
}
