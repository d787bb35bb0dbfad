/** The optional value used for parses that may fail and for fields that may
    be absent. */
module Wrappers {

  datatype Option<+T> = None | Some(value: T)
}
