/** The optional value used for a source's label: a file name, or none for standard input. */
module Wrappers {

  datatype Option<+T> = None | Some(value: T)
}
