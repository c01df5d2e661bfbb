/** The optional value used for labels and for the callback a transition fires. */
module Options {
  datatype Option<+T> = None | Some(value: T)
}
