/** The optional-value type used for JavaScript `null` and for payloads that do not parse. */
module Wrappers {

  datatype Option<+T> = None | Some(value: T)
}
