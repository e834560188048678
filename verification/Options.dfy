/** The conventional optional value, used where the sources use `undefined`, `null` or `None`. */
module Options {
  datatype Option<+T> = None | Some(value: T)
}
