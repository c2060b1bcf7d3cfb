/** The optional value used for the session's selected archive index. */
module Wrappers {

  datatype Option<+T> = None | Some(value: T)
}
