/** The optional value the source expresses with `undefined`. */
module Options {
  datatype Option<+T> = None | Some(value: T)
}
