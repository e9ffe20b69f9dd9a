/** A value that may be absent: a null pointer or a failed scan in the C code. */
module Options {
  datatype Option<+T> = None | Some(value: T)
}
