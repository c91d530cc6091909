/** The optional value used for "this text did not parse" and "nothing was drawn". */
module Wrappers {

  datatype Option<+T> = None | Some(value: T)

}
