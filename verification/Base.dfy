/** Vocabulary shared by every component: optional values and bytes. */
module Base {
  datatype Option<+T> = None | Some(value: T)

  type Byte = b: int | 0 <= b < 256

  type Bytes = seq<Byte>
}
