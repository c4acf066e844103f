/** Bytes, optional values and hexadecimal digits, which several parts share. */
module Bytes {

  type Byte = x: int | 0 <= x < 256

  datatype Option<T> = None | Some(value: T)

  predicate IsHex(b: Byte) {
    0x30 <= b <= 0x39 || 0x41 <= b <= 0x46 || 0x61 <= b <= 0x66
  }

  function HexValue(b: Byte): (n: nat)
    requires IsHex(b)
    ensures n < 16
  {
    if b <= 0x39 then b - 0x30 else if b <= 0x46 then b - 0x37 else b - 0x57
  }

  // '0' to '9' and 'A' to 'F'.
  function HexDigit(n: nat): (b: Byte)
    requires n < 16
    ensures IsHex(b) && HexValue(b) == n
  {
    if n < 10 then 0x30 + n else 0x37 + n
  }
}
