/** The optional value used for "no time" (a lost round) and "no input left". */
module Wrappers {

  datatype Option<+T> = None | Some(value: T)
}
