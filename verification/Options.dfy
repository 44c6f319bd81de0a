/** The optional value that several modules share. */
module Options {
  datatype Option<+T> = None | Some(value: T)
}
