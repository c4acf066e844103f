/** launcher.c and url.c: the URL that is handed to a shell has its special
    characters escaped; unescaping gives what it would have given before. */
module Url {
  import opened Bytes

  const PERCENT: Byte := 0x25
  const PLUS: Byte := 0x2B
  const SPACE: Byte := 0x20

  // The character at the head of a string, and how many bytes it takes.
  function UnescapeOne(s: seq<Byte>): (r: (Byte, nat))
    requires s != []
    ensures 1 <= r.1 <= 3 && r.1 <= |s|
  {
    if s[0] == PLUS then (SPACE, 1)
    else if s[0] != PERCENT || |s| < 2 || !IsHex(s[1]) then (s[0], 1)
    else if |s| < 3 || !IsHex(s[2]) then (HexValue(s[1]), 2)
    else (16 * HexValue(s[1]) + HexValue(s[2]), 3)
  }

  /** The text that an escaped string stands for, malformed sequences included. */
  function Unescape(s: seq<Byte>): (r: seq<Byte>)
    ensures |r| <= |s|
    decreases |s|
  {
    if s == [] then [] else [UnescapeOne(s).0] + Unescape(s[UnescapeOne(s).1..])
  }

  // The byte at a position of a NUL-terminated string.
  function At(s: seq<Byte>, i: nat): Byte {
    if i < |s| then s[i] else 0
  }

  // The rest of a NUL-terminated string is still where it was.
  ghost predicate Unread(a: array<Byte>, s: seq<Byte>, u: nat)
    reads a
  {
    |s| < a.Length && forall k :: u <= k <= |s| ==> a[k] == At(s, k)
  }

  // The character at the read position.
  method ReadChar(a: array<Byte>, u0: nat, ghost s: seq<Byte>) returns (ch: Byte, u: nat)
    requires 0 !in s && u0 < |s| && Unread(a, s, u0)
    ensures (ch, u) == (UnescapeOne(s[u0..]).0, u0 + UnescapeOne(s[u0..]).1)
  {
    ch, u := a[u0], u0 + 1;
    if ch == PLUS {
      ch := SPACE;
    } else if ch == PERCENT {
      var c1 := a[u];
      if IsHex(c1) {
        ch := HexValue(c1);
        u := u + 1;
        var c2 := a[u];
        if IsHex(c2) {
          ch := 16 * ch + HexValue(c2);
          u := u + 1;
        }
      }
    }
  }

  /** urlUnescape: never writes ahead of the position that it reads from. */
  method UrlUnescape(a: array<Byte>, ghost s: seq<Byte>)
    requires 0 !in s && Unread(a, s, 0)
    modifies a
    ensures a[..|Unescape(s)| + 1] == Unescape(s) + [0]
  {
    hide UnescapeOne;
    var u, w := 0, 0;
    assert s[0..] == s;
    while a[u] != 0
      invariant w <= u <= |s| && Unread(a, s, u)
      invariant a[..w] + Unescape(s[u..]) == Unescape(s)
      decreases |s| - u
    {
      ghost var rest, done := s[u..], a[..w];
      UnescapeStep(s, u);
      var ch;
      ch, u := ReadChar(a, u, s);
      a[w] := ch;
      w := w + 1;
      assert a[..w] == done + [ch];
      Assoc(done, [ch], Unescape(s[u..]));
    }
    a[w] := 0;
    assert Unescape(s[u..]) == [];
  }

  lemma Assoc(a: seq<Byte>, b: seq<Byte>, c: seq<Byte>)
    ensures a + b + c == a + (b + c)
  {
  }

  lemma UnescapeStep(s: seq<Byte>, u: nat)
    requires u < |s|
    ensures var (ch, n) := UnescapeOne(s[u..]);
      u + n <= |s| && Unescape(s[u..]) == [ch] + Unescape(s[u + n..])
  {
    var n := UnescapeOne(s[u..]).1;
    assert s[u..][n..] == s[u + n..];
  }

  // ---- launchChild ----

  // The characters that mean something to a shell.
  predicate Special(b: Byte) {
    || b == 0x5C || b == 0x22 || b == 0x27 || b == 0x60 || b == 0x24 || b == 0x7B || b == 0x7D || b == 0x3B
    || b == 0x28 || b == 0x29 || b == 0x20 || b == 0x0D || b == 0x0A || b == 0x09 || b == 0x0B || b == 0x0C
  }

  function EscapeOne(b: Byte): seq<Byte> {
    if Special(b) then [PERCENT, HexDigit(b / 16), HexDigit(b % 16)] else [b]
  }

  function EscapeAll(s: seq<Byte>): seq<Byte> {
    if s == [] then [] else EscapeOne(s[0]) + EscapeAll(s[1..])
  }

  function Specials(s: seq<Byte>): nat {
    if s == [] then 0 else (if Special(s[0]) then 1 else 0) + Specials(s[1..])
  }

  predicate NoneSpecial(s: seq<Byte>) {
    forall i :: 0 <= i < |s| ==> !Special(s[i])
  }

  lemma {:induction false} EscapeConcat(a: seq<Byte>, b: seq<Byte>)
    ensures EscapeAll(a + b) == EscapeAll(a) + EscapeAll(b) && Specials(a + b) == Specials(a) + Specials(b)
  {
    hide EscapeOne;
    if a == [] {
      assert a + b == b;
    } else {
      assert (a + b)[1..] == a[1..] + b;
      EscapeConcat(a[1..], b);
      Assoc(EscapeOne(a[0]), EscapeAll(a[1..]), EscapeAll(b));
    }
  }

  lemma {:induction false} EscapePlain(s: seq<Byte>)
    requires NoneSpecial(s)
    ensures EscapeAll(s) == s && Specials(s) == 0
  {
    if s != [] {
      EscapePlain(s[1..]);
    }
  }

  lemma EscapeSingle(c: Byte)
    requires Special(c)
    ensures var e := EscapeOne(c);
      EscapeAll([c]) == e && EscapeAll(e) == e && Specials([c]) == 1 && Specials(e) == 0 && 0 !in e
  {
    assert [c][1..] == [];
    EscapePlain(EscapeOne(c));
  }

  // Escaping one special character in place.
  lemma EscapeOneMore(s: seq<Byte>, i: nat)
    requires i < |s| && Special(s[i]) && 0 !in s
    ensures var t := s[..i] + EscapeOne(s[i]) + s[i + 1..];
      EscapeAll(t) == EscapeAll(s) && Specials(t) < Specials(s) && 0 !in t
  {
    hide EscapeOne, EscapeAll, Specials, Special;
    var e := EscapeOne(s[i]);
    EscapeSingle(s[i]);
    EscapeConcat(s[..i] + e, s[i + 1..]);
    EscapeConcat(s[..i], e);
    assert s == s[..i] + [s[i]] + s[i + 1..];
    EscapeConcat(s[..i] + [s[i]], s[i + 1..]);
    EscapeConcat(s[..i], [s[i]]);
  }

  // strcspn with the special characters.
  method FindSpecial(u: array<Byte>, ghost s: seq<Byte>) returns (i: nat)
    requires 0 !in s && Unread(u, s, 0)
    ensures i <= |s| && NoneSpecial(s[..i]) && (i < |s| ==> Special(s[i])) && u[i] == At(s, i)
  {
    i := 0;
    while u[i] != 0 && !Special(u[i])
      invariant i <= |s| && NoneSpecial(s[..i])
      decreases |s| - i
    {
      assert s[..i + 1] == s[..i] + [s[i]];
      i := i + 1;
    }
  }

  method Realloc(u: array<Byte>, size: nat) returns (r: array<Byte>)
    requires u.Length <= size
    ensures fresh(r) && r.Length == size && r[..u.Length] == u[..]
  {
    r := new Byte[size](k reads u => if 0 <= k < u.Length then u[k] else 0);
  }

  method MoveRight(u: array<Byte>, dst: nat, src: nat, count: nat)
    requires src <= dst && dst + count <= u.Length
    modifies u
    ensures u[dst..dst + count] == old(u[src..src + count]) && u[..dst] == old(u[..dst])
  {
    var k: nat := count;
    while k > 0
      invariant k <= count && u[..dst] == old(u[..dst]) && u[src..src + k] == old(u[src..src + k])
      invariant u[dst + k..dst + count] == old(u[src + k..src + count])
    {
      k := k - 1;
      u[dst + k] := u[src + k];
    }
  }

  // Replaces the special character at `i` by its escape sequence.
  method EscapeAt(u0: array<Byte>, i: nat, ghost s: seq<Byte>) returns (u: array<Byte>)
    requires 0 !in s && i < |s| && Special(s[i]) && u0[..] == s + [0]
    ensures fresh(u) && u[..] == s[..i] + EscapeOne(s[i]) + s[i + 1..] + [0]
  {
    hide EscapeOne, Special;
    ghost var e, rest := EscapeOne(s[i]), s[i + 1..] + [0];
    EscapeForm(s[i]);
    u := Realloc(u0, u0.Length + 2);
    ghost var all := u[..u0.Length];
    assert u[i + 1..u0.Length] == all[i + 1..] == rest;
    ghost var head := u[..i + 3];
    assert head[..i] == all[..i] == s[..i] && head[i] == all[i] == s[i];
    var count := u0.Length - i - 1;
    assert i + 1 + count == u0.Length && i + 3 + count == u.Length;
    MoveRight(u, i + 3, i + 1, count);
    assert u[i + 3..] == u[i + 3..i + 3 + count];
    assert u[..i] == u[..i + 3][..i] && u[i] == u[..i + 3][i];
    assert u[i + 3..] == rest && u[..i] == s[..i] && u[i] == s[i];
    PutSequence(u, i, u[i]);
    ThreeParts(u[..], i);
    assert u[..][..i] == u[..i] && u[..][i..i + 3] == u[i..i + 3] && u[..][i + 3..] == u[i + 3..];
    Assoc(s[..i] + e, s[i + 1..], [0]);
  }

  lemma ThreeParts(s: seq<Byte>, i: nat)
    requires i + 3 <= |s|
    ensures s == s[..i] + s[i..i + 3] + s[i + 3..]
  {
  }

  lemma EscapeForm(b: Byte)
    requires Special(b)
    ensures EscapeOne(b) == [PERCENT, HexDigit(b / 16), HexDigit(b % 16)]
  {
  }

  method PutSequence(u: array<Byte>, i: nat, b: Byte)
    requires i + 3 <= u.Length
    modifies u
    ensures u[..i] == old(u[..i]) && u[i + 3..] == old(u[i + 3..])
    ensures u[i..i + 3] == [PERCENT, HexDigit(b / 16), HexDigit(b % 16)]
  {
    u[i + 2] := HexDigit(b % 16);
    u[i + 1] := HexDigit(b / 16);
    u[i] := PERCENT;
  }

  /** The start of launchChild: escapes one character after the other until none is
      special. */
  method EscapeUrl(url: seq<Byte>) returns (u: array<Byte>)
    requires 0 !in url
    ensures u[..] == EscapeAll(url) + [0] && NoneSpecial(EscapeAll(url))
  {
    u := new Byte[|url| + 1](k => if 0 <= k < |url| then url[k] else 0);
    ghost var s := url;
    assert u[..] == s + [0];
    while true
      invariant 0 !in s && u[..] == s + [0] && EscapeAll(s) == EscapeAll(url)
      decreases Specials(s)
    {
      assert forall k :: 0 <= k <= |s| ==> u[k] == (s + [0])[k];
      var i := FindSpecial(u, s);
      if u[i] == 0 {
        assert s[..i] == s;
        EscapePlain(s);
        return;
      }
      EscapeOneMore(s, i);
      u := EscapeAt(u, i, s);
      s := s[..i] + EscapeOne(s[i]) + s[i + 1..];
    }
  }

  // ---- Escaping preserves meaning ----

  // A hexadecimal digit is at the head of an escaped string exactly if it was at
  // the head of the string.
  lemma SameHead(s: seq<Byte>)
    ensures EscapeAll(s) == [] <==> s == []
    ensures s != [] ==> var e := EscapeAll(s)[0]; (if IsHex(s[0]) then e == s[0] else !IsHex(e))
    ensures s != [] && !Special(s[0]) ==> EscapeAll(s) == [s[0]] + EscapeAll(s[1..])
  {
  }

  // What a malformed or complete sequence takes is the same in the escaped string.
  lemma SameSequence(s: seq<Byte>)
    requires s != [] && s[0] == PERCENT
    ensures var (ch, n) := UnescapeOne(s);
      UnescapeOne(EscapeAll(s)) == (ch, n) && EscapeAll(s)[n..] == EscapeAll(s[n..])
  {
    hide EscapeAll, Special;
    var e1 := EscapeAll(s[1..]);
    assert !Special(s[0]) by { PercentPlain(); }
    SameHead(s);
    SameHead(s[1..]);
    if |s| > 1 && IsHex(s[1]) {
      var e2 := EscapeAll(s[2..]);
      HexPlain(s[1]);
      assert s[1..][1..] == s[2..];
      SameHead(s[2..]);
      if |s| > 2 && IsHex(s[2]) {
        HexPlain(s[2]);
        assert s[2..][1..] == s[3..];
      }
    }
  }

  lemma PercentPlain()
    ensures !Special(PERCENT)
  {
  }

  lemma HexPlain(b: Byte)
    requires IsHex(b)
    ensures !Special(b)
  {
  }

  lemma SpecialUnescapes(s: seq<Byte>)
    requires s != [] && Special(s[0])
    ensures UnescapeOne(EscapeAll(s)) == (s[0], 3) && EscapeAll(s)[3..] == EscapeAll(s[1..])
  {
    var e := EscapeOne(s[0]);
    assert EscapeAll(s) == e + EscapeAll(s[1..]);
  }

  /** Unescaping the escaped URL gives what unescaping the URL gives, malformed
      sequences included. */
  lemma {:induction false} EscapePreserves(s: seq<Byte>)
    ensures Unescape(EscapeAll(s)) == Unescape(s)
    decreases |s|
  {
    if s != [] {
      SameHead(s);
      if Special(s[0]) {
        SpecialUnescapes(s);
        EscapePreserves(s[1..]);
      } else if s[0] == PERCENT {
        SameSequence(s);
        EscapePreserves(s[UnescapeOne(s).1..]);
      } else {
        assert ([s[0]] + EscapeAll(s[1..]))[1..] == EscapeAll(s[1..]);
        EscapePreserves(s[1..]);
      }
    }
  }

  // ---- What browsers send ----

  // Letters and digits stand for themselves, a space becomes a plus sign, and all else
  // its two digits.
  function FormOne(b: Byte): seq<Byte> {
    if 0x30 <= b <= 0x39 || 0x41 <= b <= 0x5A || 0x61 <= b <= 0x7A then [b]
    else if b == SPACE then [PLUS]
    else [PERCENT, HexDigit(b / 16), HexDigit(b % 16)]
  }

  function FormAll(s: seq<Byte>): seq<Byte> {
    if s == [] then [] else FormOne(s[0]) + FormAll(s[1..])
  }

  lemma UnescapeHead(head: seq<Byte>, rest: seq<Byte>, b: Byte)
    requires head != [] && UnescapeOne(head + rest) == (b, |head|)
    ensures Unescape(head + rest) == [b] + Unescape(rest)
  {
    assert (head + rest)[|head|..] == rest;
  }

  lemma FormHead(b: Byte, rest: seq<Byte>)
    ensures UnescapeOne(FormOne(b) + rest) == (b, |FormOne(b)|)
  {
    var s := FormOne(b) + rest;
    if s[0] == PERCENT {
      assert HexValue(HexDigit(b / 16)) == b / 16 && HexValue(HexDigit(b % 16)) == b % 16;
      assert s[1] == HexDigit(b / 16) && s[2] == HexDigit(b % 16);
    }
  }

  /** Unescaping gives back whatever a browser escaped ... */
  lemma {:induction false} UnescapeForm(s: seq<Byte>)
    ensures Unescape(FormAll(s)) == s
  {
    hide Unescape, UnescapeOne, FormOne;
    if s == [] {
      UnescapeNothing();
    } else {
      UnescapeForm(s[1..]);
      FormHead(s[0], FormAll(s[1..]));
      UnescapeHead(FormOne(s[0]), FormAll(s[1..]), s[0]);
    }
  }

  lemma UnescapeNothing()
    ensures Unescape([]) == []
  {
  }

  /** ... and of malformed sequences it keeps a percent sign without a digit, and takes a
      single digit for a character. */
  lemma UnescapeMalformed(digit: Byte, rest: seq<Byte>)
    requires rest != [] ==> !IsHex(rest[0])
    ensures Unescape([PERCENT] + rest) == [PERCENT] + Unescape(rest)
    ensures IsHex(digit) ==> Unescape([PERCENT, digit] + rest) == [HexValue(digit)] + Unescape(rest)
  {
    hide Unescape;
    UnescapeHead([PERCENT], rest, PERCENT);
    if IsHex(digit) {
      UnescapeHead([PERCENT, digit], rest, HexValue(digit));
    }
  }
}
