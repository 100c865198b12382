/** Rust's `Option`, used for the chord's key and modifier slots and for the
    message projections. */
module Wrappers {

  datatype Option<+T> = None | Some(value: T)
}
