/** The optional value that the scripts express with Python's `None`. */
module Wrappers {

  datatype Option<+T> = None | Some(value: T)
}
