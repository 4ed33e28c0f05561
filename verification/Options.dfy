module Options {
  /** A value that may be absent: the source's nil pointers, nil slices and nil contexts. */
  datatype Option<+T> = None | Some(value: T)

  newtype Byte = x: int | 0 <= x < 256
}
