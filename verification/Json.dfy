/** shellinaboxd.c: how the child's output is written as a JSON string, and how the
    browser reads it (section 7 of RFC 8259). */
module Json {
  import opened Bytes

  const BACKSLASH: Byte := 0x5C
  const QUOTE: Byte := 0x22
  const SLASH: Byte := 0x2F

  // The letter of a short escape sequence, if there is one.
  function Letter(ch: Byte): Option<Byte> {
    if ch == 0x08 then Some(0x62)
    else if ch == 0x0C then Some(0x66)
    else if ch == 0x0A then Some(0x6E)
    else if ch == 0x0D then Some(0x72)
    else if ch == 0x09 then Some(0x74)
    else if ch == QUOTE || ch == BACKSLASH || ch == SLASH then Some(ch)
    else None
  }

  predicate Plain(ch: Byte) {
    0x20 <= ch <= 0x7F && ch != QUOTE && ch != BACKSLASH && ch != SLASH
  }

  function Escape(ch: Byte): (r: seq<Byte>)
    ensures |r| == if Plain(ch) then 1 else if Letter(ch).Some? then 2 else 6
  {
    if Plain(ch) then [ch]
    else if Letter(ch).Some? then [BACKSLASH, Letter(ch).value]
    else [BACKSLASH, 0x75, 0x30, 0x30, HexDigit(ch / 16), HexDigit(ch % 16)]
  }

  function EscapeAll(s: seq<Byte>): seq<Byte> {
    if s == [] then [] else EscapeAll(s[..|s| - 1]) + Escape(s[|s| - 1])
  }

  lemma EscapeNext(s: seq<Byte>, i: nat)
    requires i < |s|
    ensures EscapeAll(s[..i + 1]) == EscapeAll(s[..i]) + Escape(s[i])
  {
    assert s[..i + 1][..i] == s[..i];
  }

  lemma {:induction false} EscapeGrows(s: seq<Byte>, i: nat)
    requires i <= |s|
    ensures |EscapeAll(s[..i])| <= |EscapeAll(s)|
    decreases |s| - i
  {
    if i == |s| {
      assert s[..i] == s;
    } else {
      EscapeNext(s, i);
      EscapeGrows(s, i + 1);
    }
  }

  // The space that the encoded buffer needs.
  method CountEscaped(buf: seq<Byte>) returns (count: nat)
    ensures count == |EscapeAll(buf)|
  {
    count := 0;
    for i := 0 to |buf|
      invariant count == |EscapeAll(buf[..i])|
    {
      EscapeNext(buf, i);
      var ch := buf[i];
      if ch < 0x20 {
        if ch == 0x08 || ch == 0x0C || ch == 0x0A || ch == 0x0D || ch == 0x09 {
          count := count + 2;
        } else {
          count := count + 6;
        }
      } else if ch == QUOTE || ch == BACKSLASH || ch == SLASH {
        count := count + 2;
      } else if ch > 0x7F {
        count := count + 6;
      } else {
        count := count + 1;
      }
    }
    assert buf[..|buf|] == buf;
  }

  method PutEscaped(result: array<Byte>, dst0: nat, ch: Byte) returns (dst: nat)
    requires dst0 + |Escape(ch)| <= result.Length
    modifies result
    ensures dst == dst0 + |Escape(ch)| && result[..dst] == old(result[..dst0]) + Escape(ch)
  {
    dst := dst0;
    if 0x20 <= ch <= 0x7F && ch != QUOTE && ch != BACKSLASH && ch != SLASH {
      result[dst] := ch;
      dst := dst + 1;
      return;
    }
    result[dst] := BACKSLASH;
    dst := dst + 1;
    if ch == 0x08 { result[dst] := 0x62; }
    else if ch == 0x0C { result[dst] := 0x66; }
    else if ch == 0x0A { result[dst] := 0x6E; }
    else if ch == 0x0D { result[dst] := 0x72; }
    else if ch == 0x09 { result[dst] := 0x74; }
    else if ch == QUOTE || ch == BACKSLASH || ch == SLASH { result[dst] := ch; }
    else {
      result[dst], result[dst + 1], result[dst + 2] := 0x75, 0x30, 0x30;
      result[dst + 3], result[dst + 4] := HexDigit(ch / 16), HexDigit(ch % 16);
      dst := dst + 4;
    }
    dst := dst + 1;
  }

  /** jsonEscape: counts, then fills a buffer of exactly that size, and a NUL. */
  method JsonEscape(buf: seq<Byte>) returns (result: array<Byte>)
    ensures fresh(result) && result[..] == EscapeAll(buf) + [0]
  {
    hide Escape, EscapeAll;
    var count := CountEscaped(buf);
    result := new Byte[count + 1];
    var dst := 0;
    EscapeNothing();
    assert buf[..0] == [];
    for i := 0 to |buf|
      invariant dst == |EscapeAll(buf[..i])| <= count && result[..dst] == EscapeAll(buf[..i])
    {
      EscapeNext(buf, i);
      EscapeGrows(buf, i + 1);
      dst := PutEscaped(result, dst, buf[i]);
    }
    assert buf[..|buf|] == buf;
    result[dst] := 0;
  }

  lemma EscapeNothing()
    ensures EscapeAll([]) == []
  {
  }

  // ---- Reading ----

  // The character that a short escape sequence stands for.
  function Named(letter: Byte): Option<nat> {
    if letter == 0x62 then Some(0x08)
    else if letter == 0x66 then Some(0x0C)
    else if letter == 0x6E then Some(0x0A)
    else if letter == 0x72 then Some(0x0D)
    else if letter == 0x74 then Some(0x09)
    else if letter == QUOTE || letter == BACKSLASH || letter == SLASH then Some(letter)
    else None
  }

  // One character of a string, and how many bytes it takes.
  function ReadOne(s: seq<Byte>): (r: Option<(nat, nat)>)
    ensures r.Some? ==> 0 < r.value.1 <= |s|
  {
    if s == [] || s[0] < 0x20 || s[0] == QUOTE then None
    else if s[0] != BACKSLASH then Some((s[0], 1))
    else if |s| < 2 then None
    else if s[1] == 0x75 then
      if |s| >= 6 && IsHex(s[2]) && IsHex(s[3]) && IsHex(s[4]) && IsHex(s[5])
      then Some((((HexValue(s[2]) * 16 + HexValue(s[3])) * 16 + HexValue(s[4])) * 16 + HexValue(s[5]), 6))
      else None
    else if Named(s[1]).Some? then Some((Named(s[1]).value, 2))
    else None
  }

  /** The code units of the text between the quotes of a JSON string. */
  function ReadString(s: seq<Byte>): Option<seq<nat>>
    decreases |s|
  {
    if s == [] then Some([])
    else
      match ReadOne(s)
      case None => None
      case Some((ch, n)) =>
        match ReadString(s[n..])
        case None => None
        case Some(rest) => Some([ch] + rest)
  }

  lemma ReadsBack(ch: Byte, more: seq<Byte>)
    ensures ReadOne(Escape(ch) + more) == Some((ch, |Escape(ch)|))
  {
    var s := Escape(ch) + more;
    if !Plain(ch) && Letter(ch).None? {
      assert s[4] == HexDigit(ch / 16) && s[5] == HexDigit(ch % 16) && s[2] == s[3] == 0x30;
      assert HexValue(s[4]) == ch / 16 && HexValue(s[5]) == ch % 16;
    }
  }

  lemma {:induction false} EscapeFirst(s: seq<Byte>)
    requires s != []
    ensures EscapeAll(s) == Escape(s[0]) + EscapeAll(s[1..])
  {
    hide Escape;
    if |s| == 1 {
      assert s[..0] == [] && s[1..] == [];
    } else {
      var init, last := s[..|s| - 1], s[|s| - 1];
      EscapeFirst(init);
      assert init[1..] == s[1..][..|s| - 2] && s[1..][|s| - 2] == last && init[0] == s[0];
      assert Escape(s[0]) + EscapeAll(init[1..]) + Escape(last) == Escape(s[0]) + (EscapeAll(init[1..]) + Escape(last));
    }
  }

  /** The browser reads back every byte as the code unit of the same value. */
  lemma {:induction false} RoundTrip(s: seq<Byte>)
    ensures ReadString(EscapeAll(s)) == Some(s)
  {
    hide Escape, ReadOne, EscapeAll;
    if s == [] {
      EscapeNothing();
    } else {
      var first, rest := Escape(s[0]), EscapeAll(s[1..]);
      EscapeFirst(s);
      ReadsBack(s[0], rest);
      RoundTrip(s[1..]);
      assert (first + rest)[|first|..] == rest;
      assert [s[0]] + s[1..] == s;
    }
  }
}
