/** The one wrapper every component shares. */
module Options {
  datatype Option<+T> = None | Some(value: T)
}
