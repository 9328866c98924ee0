/** The optional value both the DAO and the cache use for Java's null. */
module Wrappers {
  datatype Option<+T> = None | Some(value: T)
}
