/** What the terminal's decoder makes of the text that the demo and the web socket
    send in UTF-8. */
module Utf8Facts {
  import opened TermSpec
  import opened Cells
  import opened TermFacts
  import opened Bytes
  import Utf8
  import WebSocket

  type Unit = Utf8.Unit

  /** The decoder after a string of bytes, and the characters that it gave. */
  function DecodeAll(u: Utf, s: seq<CodeUnit>): (r: (Utf, seq<CodeUnit>))
    requires UtfOk(u)
    ensures UtfOk(r.0)
  {
    if s == [] then (u, [])
    else
      var (u1, before) := DecodeAll(u, s[..|s| - 1]);
      var (u2, glyph) := Decode(u1, s[|s| - 1]);
      (u2, if glyph.Nothing? then before else before + [glyph.ch])
  }

  lemma {:induction false} DecodeConcat(u: Utf, a: seq<CodeUnit>, b: seq<CodeUnit>)
    requires UtfOk(u)
    ensures var (u1, s1) := DecodeAll(u, a); var (u2, s2) := DecodeAll(u1, b);
      DecodeAll(u, a + b) == (u2, s1 + s2)
    decreases |b|
  {
    hide Decode;
    if b == [] {
      assert a + b == a && DecodeAll(u, a).1 + [] == DecodeAll(u, a).1;
    } else {
      DecodeConcat(u, a, b[..|b| - 1]);
      var s1, s2 := DecodeAll(u, a).1, DecodeAll(DecodeAll(u, a).0, b[..|b| - 1]).1;
      var glyph := Decode(DecodeAll(u, a + b[..|b| - 1]).0, b[|b| - 1]).1;
      assert glyph.Glyph? ==> s1 + s2 + [glyph.ch] == s1 + (s2 + [glyph.ch]);
      assert (a + b)[..|a + b| - 1] == a + b[..|b| - 1];
    }
  }

  // The ways to write a code unit in one, two or three bytes.
  function Form(c: Unit, n: nat): (r: seq<CodeUnit>)
    requires 1 <= n <= 3 && (n == 1 ==> c < 0x80) && (n == 2 ==> c < 0x800)
    ensures |r| == n
  {
    if n == 1 then [c]
    else if n == 2 then [0xC0 + c / 64, 0x80 + c % 64]
    else [0xE0 + c / 4096, 0x80 + c / 64 % 64, 0x80 + c % 64]
  }

  // The decoder before the last byte of a form.
  function Before(u: Utf, c: Unit, n: nat): (r: Utf)
    requires UtfOk(u) && 1 <= n <= 3 && (n == 1 ==> c < 0x80) && (n == 2 ==> c < 0x800)
    ensures UtfOk(r)
  {
    if n == 1 then u else Utf(1, c / 64)
  }

  lemma DecodeOne(u: Utf, b: CodeUnit)
    requires UtfOk(u) && Decode(u, b).1 == Nothing
    ensures DecodeAll(u, [b]) == (Decode(u, b).0, [])
  {
    assert [b][..0] == [];
  }

  // The last six bits.
  lemma Ends(u: Utf, bits: nat)
    requires u == Utf(1, bits / 64) && bits < 0x1_0000 && UtfOk(u)
    ensures Decode(u, 0x80 + bits % 64) == (Utf(0, bits), Glyph(bits))
  {
    assert (0x80 + bits % 64) % 64 == bits % 64 && bits / 64 * 64 + bits % 64 == bits;
  }

  lemma Ascii(u: Utf, c: CodeUnit)
    requires UtfOk(u) && c < 0x80
    ensures Decode(u, c) == (u.(count := 0), Glyph(c)) && DecodeAll(u, []) == (u, [])
  {
  }

  // A first byte starts over.
  lemma FirstByte(u: Utf, count: nat, bits: nat)
    requires (count == 1 && bits < 32) || (count == 2 && bits < 16)
    requires UtfOk(u)
    ensures Decode(u, (if count == 1 then 0xC0 else 0xE0) + bits) == (Utf(count, bits), Nothing)
  {
    var b := (if count == 1 then 0xC0 else 0xE0) + bits;
    assert b % 256 == b;
  }

  lemma FormDecodes(u: Utf, c: Unit, n: nat)
    requires UtfOk(u) && 1 <= n <= 3 && (n == 1 ==> c < 0x80) && (n == 2 ==> c < 0x800)
    ensures var form := Form(c, n);
      && DecodeAll(u, form[..n - 1]) == (Before(u, c, n), [])
      && Decode(Before(u, c, n), form[n - 1]) == (Utf(0, if n == 1 then u.ch else c), Glyph(c))
  {
    hide Decode, DecodeAll;
    var form := Form(c, n);
    if n == 1 {
      assert form[..0] == [];
      Ascii(u, c);
    } else if n == 2 {
      assert form[..1] == [form[0]];
      FirstByte(u, 1, c / 64);
      DecodeOne(u, form[0]);
      Ends(Utf(1, c / 64), c);
    } else {
      FirstByte(u, 2, c / 4096);
      DecodeOne(u, form[0]);
      MiddleByte(c);
      assert form[..2][..1] == [form[0]];
      assert form[..2] == [form[0]] + [form[1]];
      DecodeConcat(u, [form[0]], [form[1]]);
      DecodeOne(Utf(2, c / 4096), form[1]);
      assert [] + [] == DecodeAll(u, form[..2]).1 == [];
      Ends(Utf(1, c / 64), c);
    }
  }

  lemma MiddleByte(c: Unit)
    ensures UtfOk(Utf(2, c / 4096)) && Decode(Utf(2, c / 4096), 0x80 + c / 64 % 64) == (Utf(1, c / 64), Nothing)
  {
    assert (0x80 + c / 64 % 64) % 64 == c / 64 % 64 && c / 4096 * 64 + c / 64 % 64 == c / 64;
  }

  /** Each form is decoded as its code unit, whatever the decoder was reading. */
  lemma FormIsUnit(u: Utf, c: Unit, n: nat)
    requires UtfOk(u) && 1 <= n <= 3 && (n == 1 ==> c < 0x80) && (n == 2 ==> c < 0x800)
    ensures DecodeAll(u, Form(c, n)).1 == [c]
  {
    hide Decode;
    FormDecodes(u, c, n);
  }

  // ---- Whole strings ----

  /** printUnicode: its first test compares with a string of three characters, so that
      only NUL is sent as it is, and ASCII is sent in two bytes. */
  function PrintUnicode(s: seq<Unit>): seq<CodeUnit> {
    if s == [] then [] else PrintUnicode(s[..|s| - 1]) + PrintUnit(s[|s| - 1])
  }

  function PrintUnit(c: Unit): seq<CodeUnit> {
    Form(c, if c == 0 then 1 else if c < 0x800 then 2 else 3)
  }

  /** The terminal gets back every string that is printed, whatever it was in the
      middle of. */
  lemma {:induction false} PrintedDecodes(u: Utf, s: seq<Unit>)
    requires UtfOk(u)
    ensures DecodeAll(u, PrintUnicode(s)).1 == s
    decreases |s|
  {
    hide Decode, Form, DecodeAll;
    if s == [] {
      DecodesNothing(u);
    } else {
      var init, c := s[..|s| - 1], s[|s| - 1];
      PrintedDecodes(u, init);
      DecodeConcat(u, PrintUnicode(init), PrintUnit(c));
      FormIsUnit(DecodeAll(u, PrintUnicode(init)).0, c, if c == 0 then 1 else if c < 0x800 then 2 else 3);
    }
  }

  lemma DecodesNothing(u: Utf)
    requires UtfOk(u)
    ensures DecodeAll(u, []).1 == []
  {
  }

  /** ... and every Latin-1 text that is sent over a web socket. */
  lemma {:induction false} SocketTextDecodes(u: Utf, s: seq<Byte>)
    requires UtfOk(u)
    ensures DecodeAll(u, WebSocket.Utf8Text(s)).1 == s
    decreases |s|
  {
    hide Decode, Form, DecodeAll;
    if s == [] {
      DecodesNothing(u);
    } else {
      var init, c := s[..|s| - 1], s[|s| - 1];
      SocketTextDecodes(u, init);
      DecodeConcat(u, WebSocket.Utf8Text(init), Utf8.Encode(c));
      SocketForm(c);
      FormIsUnit(DecodeAll(u, WebSocket.Utf8Text(init)).0, c, if c < 0x80 then 1 else 2);
    }
  }

  lemma SocketForm(c: Byte)
    ensures Utf8.Encode(c) == Form(c, if c < 0x80 then 1 else 2)
  {
  }

  // A character that the decoder gave.
  function ActOn(c: Config, t: Term, ch: CodeUnit, nested: bool): (r: Term)
    requires Sound(c, t)
    ensures Sound(c, r)
  {
    var (t1, expansion) := Act(c, t, ch);
    if expansion == [] || nested then t1 else Process(c, t1, expansion, true)
  }

  lemma {:induction false} DecodingOnly(c: Config, t: Term, s: seq<CodeUnit>, nested: bool)
    requires Sound(c, t) && t.modes.utf && DecodeAll(t.utf, s).1 == []
    ensures Process(c, t, s, nested) == t.(utf := DecodeAll(t.utf, s).0)
    decreases |s|
  {
    hide Act, Decode;
    if s != [] {
      DecodingOnly(c, t, s[..|s| - 1], nested);
    }
  }

  /** In a terminal that decodes UTF-8, a printed character does what the character
      itself would do. */
  lemma PrintedActs(c: Config, t: Term, ch: Unit, nested: bool)
    requires Sound(c, t) && t.modes.utf
    ensures UtfOk(Utf(0, if ch == 0 then t.utf.ch else ch))
    ensures var u := Utf(0, if ch == 0 then t.utf.ch else ch);
      Process(c, t, PrintUnit(ch), nested) == ActOn(c, t.(utf := u), ch, nested)
  {
    hide Act, Decode, DecodeAll, Form, Process;
    var n := if ch == 0 then 1 else if ch < 0x800 then 2 else 3;
    var form := Form(ch, n);
    FormDecodes(t.utf, ch, n);
    DecodingOnly(c, t, form[..n - 1], nested);
    ProcessNext(c, t, form, n - 1, nested);
    assert form[..n] == form;
  }
}
