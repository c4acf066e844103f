/** shell_in_a_box.js and shellinaboxd.c: how keys get from the browser to the
    child, as hexadecimal digits in requests that are sent one at a time. */
module Keys {
  import opened Bytes
  import opened Utf8

  // ---- Hexadecimal digits ----

  // Two digits for each byte.
  function Hex(s: seq<Byte>): (r: seq<Byte>)
    ensures |r| == 2 * |s|
  {
    if s == [] then [] else [HexDigit(s[0] / 16), HexDigit(s[0] % 16)] + Hex(s[1..])
  }

  /** The bytes that a string of digits stands for, up to the first other character. */
  function Unhex(s: seq<Byte>): (r: seq<Byte>)
    ensures |r| <= |s| / 2
  {
    if |s| < 2 || !IsHex(s[0]) || !IsHex(s[1]) then []
    else [16 * HexValue(s[0]) + HexValue(s[1])] + Unhex(s[2..])
  }

  lemma {:induction false} UnhexHex(s: seq<Byte>)
    ensures Unhex(Hex(s)) == s
  {
    if s != [] {
      var b := s[0];
      assert HexValue(HexDigit(b / 16)) == b / 16 && HexValue(HexDigit(b % 16)) == b % 16;
      assert Hex(s)[2..] == Hex(s[1..]);
      UnhexHex(s[1..]);
    }
  }

  // ---- keysPressed ----

  // The bytes whose digits are sent for a code unit.  The code masks one digit
  // of the last form too late: `0x8 + (c >> 10) & 0x3` is `(0x8 + (c >> 10)) & 0x3`.
  function SentBytes(c: Unit): (r: seq<Byte>)
    ensures |r| == |Encode(c)|
  {
    if c < 0x80 then [c]
    else if c < 0x800 then [16 * (0xC + c / 1024) + c / 64 % 16, 16 * (0x8 + c / 16 % 4) + c % 16]
    else [16 * 0xE + c / 4096, 16 * ((0x8 + c / 1024) % 4) + c / 64 % 16, 16 * (0x8 + c / 16 % 4) + c % 16]
  }

  function SentAll(s: seq<Unit>): seq<Byte> {
    if s == [] then [] else SentAll(s[..|s| - 1]) + SentBytes(s[|s| - 1])
  }

  lemma {:induction false} HexConcat(a: seq<Byte>, b: seq<Byte>)
    ensures Hex(a + b) == Hex(a) + Hex(b)
  {
    if a == [] {
      assert a + b == b;
    } else {
      assert (a + b)[1..] == a[1..] + b;
      HexConcat(a[1..], b);
    }
  }

  lemma {:induction false} HexNoNul(s: seq<Byte>)
    ensures 0 !in Hex(s)
  {
    if s != [] {
      HexNoNul(s[1..]);
    }
  }

  lemma HexOne(high: nat, low: nat)
    requires high < 16 && low < 16
    ensures Hex([16 * high + low]) == [HexDigit(high), HexDigit(low)]
  {
    var b: Byte := 16 * high + low;
    assert b / 16 == high && b % 16 == low && [b][1..] == [];
  }

  lemma HexTwo(h0: nat, l0: nat, h1: nat, l1: nat)
    requires h0 < 16 && l0 < 16 && h1 < 16 && l1 < 16
    ensures Hex([16 * h0 + l0, 16 * h1 + l1]) == [HexDigit(h0), HexDigit(l0), HexDigit(h1), HexDigit(l1)]
  {
    hide Hex, HexDigit;
    HexOne(h0, l0);
    HexOne(h1, l1);
    HexConcat([16 * h0 + l0], [16 * h1 + l1]);
    assert [16 * h0 + l0] + [16 * h1 + l1] == [16 * h0 + l0, 16 * h1 + l1];
  }

  // Digits of one code unit.
  method HexUnit(c: Unit) returns (s: seq<Byte>)
    ensures s == Hex(SentBytes(c))
  {
    hide Hex, HexDigit;
    if c < 128 {
      HexOne(c / 16, c % 16);
      s := [HexDigit(c / 16), HexDigit(c % 16)];
    } else if c < 0x800 {
      HexTwo(0xC + c / 1024, c / 64 % 16, 0x8 + c / 16 % 4, c % 16);
      s := [HexDigit(0xC + c / 1024), HexDigit(c / 64 % 16), HexDigit(0x8 + c / 16 % 4), HexDigit(c % 16)];
    } else {
      var b := SentBytes(c);
      HexOne(0xE, c / 4096);
      HexTwo((0x8 + c / 1024) % 4, c / 64 % 16, 0x8 + c / 16 % 4, c % 16);
      HexConcat([b[0]], [b[1], b[2]]);
      assert b == [b[0]] + [b[1], b[2]];
      s := [HexDigit(0xE), HexDigit(c / 4096), HexDigit((0x8 + c / 1024) % 4), HexDigit(c / 64 % 16),
            HexDigit(0x8 + c / 16 % 4), HexDigit(c % 16)];
    }
  }

  /** keysPressed: the digits that are sent for a string. */
  method KeysPressed(ch: seq<Unit>) returns (s: seq<Byte>)
    ensures s == Hex(SentAll(ch))
  {
    s := [];
    for i := 0 to |ch|
      invariant s == Hex(SentAll(ch[..i]))
    {
      var digits := HexUnit(ch[i]);
      HexConcat(SentAll(ch[..i]), SentBytes(ch[i]));
      assert ch[..i + 1][..i] == ch[..i];
      s := s + digits;
    }
    assert ch[..|ch|] == ch;
  }

  // ---- The decoder of dataHandler ----

  // The byte at a position of a NUL-terminated string.
  function At(s: seq<Byte>, i: nat): Byte {
    if i < |s| then s[i] else 0
  }

  lemma UnhexAt(s: seq<Byte>, i: nat)
    requires 2 * i <= |s| && 0 !in s
    ensures var c0, c1 := At(s, 2 * i), At(s, 2 * i + 1);
      if IsHex(c0) && IsHex(c1)
      then 2 * i + 2 <= |s| && Unhex(s[2 * i..]) == [16 * HexValue(c0) + HexValue(c1)] + Unhex(s[2 * (i + 1)..])
      else Unhex(s[2 * i..]) == []
  {
    if 2 * i + 2 <= |s| {
      assert s[2 * i..][2..] == s[2 * (i + 1)..];
    }
  }

  // `16*((c0 & 0xF) + 9*(c0 > '9')) + (c1 & 0xF) + 9*(c1 > '9')`
  lemma DigitsValue(c0: Byte, c1: Byte)
    requires IsHex(c0) && IsHex(c1)
    ensures 16 * (c0 % 16 + (if c0 > 0x39 then 9 else 0)) + c1 % 16 + (if c1 > 0x39 then 9 else 0)
      == 16 * HexValue(c0) + HexValue(c1) < 256
  {
  }

  /** Decodes the digits into a buffer of half their number, which they fit. */
  method DecodeKeys(keys: seq<Byte>) returns (keyCodes: array<Byte>, len: nat)
    requires 0 !in keys
    ensures fresh(keyCodes) && keyCodes.Length == |keys| / 2
    ensures len <= keyCodes.Length && keyCodes[..len] == Unhex(keys)
  {
    hide Unhex, At;
    keyCodes := new Byte[|keys| / 2];
    len := 0;
    assert keys[2 * len..] == keys;
    while true
      invariant 2 * len <= |keys| && keyCodes[..len] + Unhex(keys[2 * len..]) == Unhex(keys)
      decreases |keys| - 2 * len
    {
      UnhexAt(keys, len);
      var c0 := At(keys, 2 * len);
      if c0 < 0x30 || (c0 > 0x39 && c0 < 0x41) || (c0 > 0x46 && c0 < 0x61) || c0 > 0x66 {
        break;
      }
      var c1 := At(keys, 2 * len + 1);
      if c1 < 0x30 || (c1 > 0x39 && c1 < 0x41) || (c1 > 0x46 && c1 < 0x61) || c1 > 0x66 {
        break;
      }
      DigitsValue(c0, c1);
      hide HexValue;
      ghost var done := keyCodes[..len];
      keyCodes[len] := 16 * (c0 % 16 + (if c0 > 0x39 then 9 else 0)) + c1 % 16 + (if c1 > 0x39 then 9 else 0);
      len := len + 1;
      assert keyCodes[..len] == done + [16 * HexValue(c0) + HexValue(c1)];
    }
  }

  // ---- What arrives ----

  lemma HighBits(c: nat)
    ensures c / 64 == 16 * (c / 1024) + c / 64 % 16
  {
    var high, middle, low := c / 1024, c % 1024 / 64, c % 64;
    assert c == 64 * (16 * high + middle) + low;
    assert c / 64 == 16 * high + middle;
  }

  lemma LowBits(c: nat)
    ensures c % 64 == 16 * (c / 16 % 4) + c % 16
  {
    var high, middle, low := c / 64, c % 64 / 16, c % 64 % 16;
    assert c == 16 * (4 * high + middle) + low;
    assert c / 16 == 4 * high + middle;
    assert c % 16 == low;
    assert (4 * high + middle) % 4 == middle;
  }

  lemma UnitArrives(c: Unit)
    ensures SentBytes(c) == Encode(c) <==> c < 0x800
  {
    if c < 0x800 {
      HighBits(c);
      LowBits(c);
    } else {
      assert SentBytes(c)[1] < 0x40 && Encode(c)[1] >= 0x80;
    }
  }

  lemma {:induction false} SentFirst(s: seq<Unit>)
    requires s != []
    ensures SentAll(s) == SentBytes(s[0]) + SentAll(s[1..])
  {
    hide SentBytes;
    if |s| == 1 {
      assert s[..0] == [] && s[1..] == [];
    } else {
      var init, last := s[..|s| - 1], s[|s| - 1];
      SentFirst(init);
      assert init[1..] == s[1..][..|s| - 2] && s[1..][|s| - 2] == last && init[0] == s[0];
      assert SentBytes(s[0]) + SentAll(init[1..]) + SentBytes(last)
        == SentBytes(s[0]) + (SentAll(init[1..]) + SentBytes(last));
    }
  }

  lemma SameConcat(a: seq<Byte>, b: seq<Byte>, c: seq<Byte>, d: seq<Byte>)
    requires |a| == |c|
    ensures a + b == c + d <==> a == c && b == d
  {
    if a + b == c + d {
      assert a == (a + b)[..|a|] && c == (c + d)[..|c|];
      assert b == (a + b)[|a|..] && d == (c + d)[|c|..];
    }
  }

  /** The child gets the UTF-8 form of what was typed exactly when no code unit
      takes three bytes. */
  lemma {:induction false} KeysArrive(s: seq<Unit>)
    ensures Unhex(Hex(SentAll(s))) == EncodeAll(s) <==> forall i :: 0 <= i < |s| ==> s[i] < 0x800
  {
    hide SentBytes, Encode, Unhex, Hex;
    UnhexHex(SentAll(s));
    if s != [] {
      UnhexHex(SentAll(s[1..]));
      SentFirst(s);
      UnitArrives(s[0]);
      SameConcat(SentBytes(s[0]), SentAll(s[1..]), Encode(s[0]), EncodeAll(s[1..]));
      KeysArrive(s[1..]);
      assert (forall i :: 0 <= i < |s| ==> s[i] < 0x800)
        <==> s[0] < 0x800 && forall i :: 0 <= i < |s[1..]| ==> s[1..][i] < 0x800 by {
        assert forall i :: 1 <= i < |s| ==> s[i] == s[1..][i - 1];
      }
    }
  }
}
