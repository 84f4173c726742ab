/** The conventional optional-value datatype, used for TypeScript's `undefined`/`null` and for lookups that may miss. */
module Wrappers {

  datatype Option<+T> = None | Some(value: T)
}
