/** A value that may be absent, such as the source's nil references and zero times. */
module Options {
  datatype Option<+T> = None | Some(value: T)
}
