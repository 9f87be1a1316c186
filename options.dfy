/** The optional value used wherever the component returns or publishes `None`. */
module Options {
  datatype Option<+T> = None | Some(value: T)
}
