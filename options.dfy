/** Java's nullable references are modelled as optional values. */
module Options {

  datatype Option<+T> = None | Some(value: T)
}
