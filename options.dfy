/** The optional value used where the source reports success through a bool
    and an out-parameter. */
module Options {
  datatype Option<+T> = None | Some(value: T)
}
