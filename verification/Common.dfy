/** Vocabulary shared by every part of the model. */
module Common {

  /** How many values a `u32` and a `u64` have. */
  const U32: nat := 0x1_0000_0000
  const U64: nat := 0x1_0000_0000_0000_0000

  datatype Option<+T> = None | Some(value: T)

  /** A `u32`: process ids and thread ids. */
  type Pid = p: int | 0 <= p < 0x1_0000_0000
}
