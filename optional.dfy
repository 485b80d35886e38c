/** The `Option` the painter uses for "no representative yet" and for parse failures. */
module Optional {
  datatype Option<+T> = None | Some(value: T)
}
