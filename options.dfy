/** The optional value used by the searches and by the volume step. */
module Options {
  datatype Option<T> = None | Some(value: T)
}
