/** The optional value shared by every puzzle module (Rust's `Option`). */
module Wrappers {
  datatype Option<+T> = None | Some(value: T)
}
