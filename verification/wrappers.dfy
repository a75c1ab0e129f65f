/** The optional value used where the page has "no value" (an unparsable number, no record being edited). */
module Wrappers {
  datatype Option<+T> = None | Some(value: T)
}
