/** Option, used for the panicking `unwrap`s and the failing parsers of the Rust code. */
module Wrappers {

  datatype Option<+T> = None | Some(value: T)
}
