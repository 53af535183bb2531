/** The optional value used where the sources return None or undefined. */
module Options {
  datatype Option<+T> = None | Some(value: T)
}
