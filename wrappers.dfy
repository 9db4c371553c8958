/** The optional value used where the source keeps `null` in a property. */
module Wrappers {

  datatype Option<+T> = None | Some(value: T)
}
