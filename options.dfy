/** An optional value: used for "nothing saved yet" and for a reading that fails. */
module Options {
  datatype Option<T> = None | Some(value: T)
}
