/** Machine words as numbers, and a value that may be missing. */
module Words {
  const U32: nat := 0x1_0000_0000
  const WORD: nat := 0x1_0000_0000_0000_0000   // u64

  datatype Option<T> = None | Some(value: T)
}
