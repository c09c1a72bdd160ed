/** An optional value, for results the source may not have. */
module Options {
  datatype Option<T> = None | Some(value: T)
}
