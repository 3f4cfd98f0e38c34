/** The conventional optional value, shared by the parsing and lookup functions of this model. */
module Options {
  datatype Option<+T> = None | Some(value: T)
}
