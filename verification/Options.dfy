/** The stock optional value, shared by the other modules. */
module Options {
  datatype Option<+T> = None | Some(value: T)
}
