/** The option type used wherever a database lookup may find nothing. */
module Wrappers {
  datatype Option<+T> = None | Some(value: T)
}
