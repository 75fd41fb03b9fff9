/** An optional value: a lookup with no entry, or a count that cannot be taken. */
module Options {
  datatype Option<T> = None | Some(value: T)
}
