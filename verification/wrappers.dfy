/** The optional value the model uses where the program keeps a null
    pointer or an error path. */
module Wrappers {
  datatype Option<+T> = None | Some(value: T)
}
