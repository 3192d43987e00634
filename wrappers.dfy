/** The optional value used where the source has `null` or an absent setting. */
module Wrappers {

  datatype Option<+T> = None | Some(value: T)
}
