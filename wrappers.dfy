/** The optional values the cell keeps (`index`, `initialFrame`). */
module Wrappers {
  datatype Option<+T> = None | Some(value: T)
}
