/** The optional value used where the program returns `None` or leaves a dictionary key out. */
module Wrappers {
  datatype Option<+T> = None | Some(value: T)
}
