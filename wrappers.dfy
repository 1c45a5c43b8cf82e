/** The optional value used for the script's "missing" and "aborted" outcomes. */
module Wrappers {

  datatype Option<T> = None | Some(value: T)
}
