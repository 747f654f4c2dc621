/** An optional value: a table lookup that may miss, or a reading that may not be a number yet. */
module Options {
  datatype Option<T> = None | Some(value: T)
}
