/** The optional value used for JavaScript's `undefined`/`null` and for lookups that find nothing. */
module Wrappers {

  datatype Option<+T> = None | Some(value: T)
}
