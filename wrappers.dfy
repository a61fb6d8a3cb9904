/** The optional value used where the source keeps `None` or produces NaN. */
module Wrappers {
  datatype Option<+T> = None | Some(value: T)
}
