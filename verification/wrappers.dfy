/** The optional value used for "no row" / "no session" results. */
module Wrappers {

  datatype Option<+T> = None | Some(value: T)
}
