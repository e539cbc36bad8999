/** The optional value used wherever the modelled code may produce "nothing" (`null`, `undefined`, `None`). */
module Wrappers {
  datatype Option<+T> = None | Some(value: T)
}
