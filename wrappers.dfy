/** The optional value shared by every module: a lookup that may miss, a
 *  child that may be absent, a reply that may not parse. */
module Wrappers {

  datatype Option<+T> = None | Some(value: T)
}
