/** The optional value that several of the models use. */
module Wrappers {

  datatype Option<+T> = None | Some(value: T)
}
