/** An optional value, as returned by the cycle detector. */
module Options {
  datatype Option<T> = None | Some(value: T)
}
