/**
 The option type shared by the protocol modules.
 */
module Wrappers {
  datatype Option<+T> = None | Some(value: T)
}
