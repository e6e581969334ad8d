/** Byte strings, as Python's `bytes`. */
module ByteStrings {
  type Byte = b: int | 0 <= b < 256

  type Bytes = seq<Byte>

  const NEWLINE: Byte := 10
  const CARRIAGE_RETURN: Byte := 13
}
