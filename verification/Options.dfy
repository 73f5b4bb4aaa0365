/** The value a lookup may not find. */
module Options {
  datatype Option<+T> = None | Some(value: T)
}
