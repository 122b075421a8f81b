/** The optional value used wherever the sources have an absent, null or undefined one. */
module Options {
  datatype Option<+T> = None | Some(value: T)
}
