/** The one wrapper type shared by the modules: Rust's `Option`. */
module Options {
  datatype Option<+T> = None | Some(value: T)
}
