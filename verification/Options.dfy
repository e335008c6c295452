/** What the C code writes as a null pointer, or a flag beside an out-parameter. */
module Options {
  datatype Option<+T> = None | Some(value: T)
}
