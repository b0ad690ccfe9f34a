/** The optional value used where the program's own code returns "nothing recognised". */
module Wrappers {
  datatype Option<+T> = None | Some(value: T)
}
