/** Bytes and 32-bit words as numbers. */
module Words {
  type Byte = x: int | 0 <= x < 256
  type Word = x: int | 0 <= x < 0x1_0000_0000

  const WORD: nat := 0x1_0000_0000
}
