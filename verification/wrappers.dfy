/** The optional value Rust's `Option` stands for: absence is a result of its own, distinct from every value. */
module Wrappers {

  datatype Option<+T> = None | Some(value: T)
}
