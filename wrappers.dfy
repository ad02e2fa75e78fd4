/** An optional value: `undefined` for an optional record field, `NaN` for a number that did not parse. */
module Wrappers {
  datatype Option<+T> = None | Some(value: T)
}
