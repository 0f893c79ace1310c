/** Optional values: JavaScript's `undefined` in configuration records, and a
    contact address that the SIP address factory cannot parse. */
module Wrappers {

  datatype Option<+T> = None | Some(value: T)
}
