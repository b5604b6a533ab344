/** The optional value used wherever the source has `null` or "not found". */
module Wrappers {

  datatype Option<+T> = None | Some(value: T)
}
