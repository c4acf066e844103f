/** UTF-8, section 3 of RFC 3629, for single UTF-16 code units. */
module Utf8 {
  import opened Bytes

  type Unit = x: int | 0 <= x < 0x1_0000

  function Encode(c: Unit): (r: seq<Byte>)
    ensures |r| == if c < 0x80 then 1 else if c < 0x800 then 2 else 3
  {
    if c < 0x80 then [c]
    else if c < 0x800 then [0xC0 + c / 64, 0x80 + c % 64]
    else [0xE0 + c / 4096, 0x80 + c / 64 % 64, 0x80 + c % 64]
  }

  function EncodeAll(s: seq<Unit>): seq<Byte> {
    if s == [] then [] else Encode(s[0]) + EncodeAll(s[1..])
  }
}
