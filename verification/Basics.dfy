/** Bytes, the limit of a 32-bit word, and optional values. */
module Basics {

  const WORD_LIMIT: nat := 0x1_0000_0000

  type byte = b: int | 0 <= b < 0x100

  datatype Option<+T> = None | Some(value: T)
}
