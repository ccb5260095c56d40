/** The optional value used wherever the repository returns Rust's `Option`. */
module Wrappers {
  datatype Option<+T> = None | Some(value: T)
}
