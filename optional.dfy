/** Rust's `Option`, used for the board lookups and the board cells. */
module Optional {

  datatype Option<+T> = None | Some(value: T)
}
