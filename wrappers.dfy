/** The optional value used by the table lookup and by the press timer. */
module Wrappers {

  datatype Option<+T> = None | Some(value: T)
}
