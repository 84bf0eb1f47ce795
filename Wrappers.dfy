/** The optional value used wherever the source has `null` or "no match". */
module Wrappers {

  datatype Option<+T> = None | Some(value: T)
}
