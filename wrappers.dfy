/** The optional value used for "a parser produced a mapping, or nothing". */
module Wrappers {

  datatype Option<+T> = None | Some(value: T)
}
