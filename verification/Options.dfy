/** The optional value every module of this project uses. */
module Options {
  datatype Option<+T> = None | Some(value: T)
}
