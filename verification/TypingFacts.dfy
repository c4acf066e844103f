/** Plain text typed on a row, and at the bottom of the screen. */
module TypingFacts {
  import opened Rows
  import opened Cells
  import opened Grid
  import opened TermSpec
  import opened TermFacts
  import opened ScreenFacts
  import opened SequenceFacts

  // An ASCII character that the character set in use shows as itself.
  predicate Typeable(c: Config, sets: Charsets, modes: Modes, ch: CodeUnit) {
    && 32 <= ch <= 126
    && ToGlyph(c.Lookup(sets.translate, if modes.toggleMeta && ch / 128 % 2 == 0 then ch + 128 else ch)) == Glyph(ch)
  }

  predicate AllTypeable(c: Config, sets: Charsets, modes: Modes, s: seq<CodeUnit>) {
    forall i :: 0 <= i < |s| ==> Typeable(c, sets, modes, s[i])
  }

  // The modes in which text is drawn character after character.
  predicate Writing(t: Term) {
    !t.modes.printing && !t.modes.insert && t.parser.esc == Normal
  }

  lemma StepDraws(c: Config, t: Term, ch: CodeUnit, nested: bool)
    requires Sound(c, t) && t.parser.esc == Normal && Typeable(c, t.sets, t.modes, ch)
    ensures Step(c, t, ch, nested) == Draw(c, Heard(t), ch)
  {
    hide Draw, ToGlyph;
  }

  // The state after typing `s` where it fits on the cursor's row.
  function Typed(c: Config, t: Term, s: seq<CodeUnit>): (r: Term)
    requires Sound(c, t)
    ensures Sound(c, r)
  {
    if s == [] then t
    else
      var full := t.x + |s| >= c.width;
      Drawn(c, Heard(t).(last := s[|s| - 1], needWrap := if full then t.modes.autoWrap else t.needWrap), s)
  }

  lemma DrawsAtOnce(c: Config, t: Term, ch: CodeUnit)
    requires Sound(c, t) && Writing(t) && !t.needWrap
    ensures Draw(c, t, ch) == DrawHere(c, t, ch)
  {
    hide DrawHere;
  }

  lemma TypeOneMore(c: Config, t: Term, s: seq<CodeUnit>, ch: CodeUnit)
    requires Sound(c, t) && Writing(t) && !t.needWrap && (t.x + |s| < c.width || !t.modes.autoWrap)
    ensures Draw(c, Heard(Typed(c, t, s)), ch) == Typed(c, t, s + [ch])
  {
    hide Splice, Fitting, Draw, DrawHere;
    var t1 := if s == [] then Heard(t) else Heard(t).(last := s[|s| - 1]);
    DrawnNothing(c, t1);
    assert Heard(Typed(c, t, s)) == Drawn(c, t1, s);
    DrawsAtOnce(c, Drawn(c, t1, s), ch);
    DrawExtends(c, t1, s, ch);
  }

  /** Text that fits on the row, or must stay there, is put there in one go. */
  lemma {:induction false} TypeOnRow(c: Config, t: Term, s: seq<CodeUnit>, nested: bool)
    requires Sound(c, t) && Writing(t) && !t.needWrap && (t.x + |s| <= c.width || !t.modes.autoWrap)
    requires AllTypeable(c, t.sets, t.modes, s)
    ensures Process(c, t, s, nested) == Typed(c, t, s)
    decreases |s|
  {
    hide Step, Draw, Splice, Fitting, Typeable;
    if s != [] {
      var s1 := s[..|s| - 1];
      TypeOnRow(c, t, s1, nested);
      StepDraws(c, Typed(c, t, s1), s[|s| - 1], nested);
      TypeOneMore(c, t, s1, s[|s| - 1]);
      assert s1 + [s[|s| - 1]] == s;
    }
  }

  // ---- Wrapping ----

  lemma PreparedWrites(c: Config, t: Term)
    requires Sound(c, t) && Writing(t)
    ensures var p := Prepared(c, t);
      && !p.needWrap && Writing(p) && p.sets == t.sets && p.modes == t.modes && p.pen == t.pen
      && Prepared(c, p) == p && Prepared(c, Heard(t)) == Heard(p)
  {
    hide Scroll;
  }

  lemma PreparedStep(c: Config, t: Term, ch: CodeUnit, nested: bool)
    requires Sound(c, t) && Writing(t) && Typeable(c, t.sets, t.modes, ch)
    ensures Step(c, t, ch, nested) == Step(c, Prepared(c, t), ch, nested)
  {
    hide Step, Prepared, Typeable, Splice;
    PreparedWrites(c, t);
    PreparedWrites(c, Prepared(c, t));
    StepDraws(c, t, ch, nested);
    StepDraws(c, Prepared(c, t), ch, nested);
  }

  /** The wrap that is due when text goes on is as good as done. */
  lemma {:induction false} WrapFirst(c: Config, t: Term, s: seq<CodeUnit>, nested: bool)
    requires Sound(c, t) && Writing(t) && |s| > 0 && Typeable(c, t.sets, t.modes, s[0])
    ensures Process(c, t, s, nested) == Process(c, Prepared(c, t), s, nested)
    decreases |s|
  {
    hide Step, Prepared, Typeable;
    if |s| == 1 {
      assert s == [s[0]];
      ProcessOne(c, t, s[0], nested);
      ProcessOne(c, Prepared(c, t), s[0], nested);
      PreparedStep(c, t, s[0], nested);
    } else {
      WrapFirst(c, t, s[..|s| - 1], nested);
    }
  }

  // ---- Typing at the bottom ----

  // The cursor at the start of the blank last row of the normal screen.
  ghost predicate AtBottom(c: Config, t: Term) {
    && Sound(c, t) && t.page.Fits(c.width, c.height)
    && Writing(t) && t.modes.autoWrap && !t.needWrap && !t.alternate
    && t.top == 0 && t.bottom == c.height && t.x == 0 && t.y == c.height - 1
    && t.page.rows[c.height - 1] == BlankRow(c.width)
  }

  /** A text broken into rows of the given width; the last one is padded. */
  function Chunks(s: seq<CodeUnit>, width: nat, pen: Pen): (rows: seq<Row>)
    requires width > 0
    ensures |rows| > 0
  {
    if |s| <= width then [Pad(TextCells(s, pen.color, pen.style), width)]
    else [TextCells(s[..width], pen.color, pen.style)] + Chunks(s[width..], width, pen)
  }

  lemma ChunkNext(above: seq<Row>, s: seq<CodeUnit>, width: nat, pen: Pen)
    requires |s| > width > 0
    ensures above + Chunks(s, width, pen)
            == above + [Pad(TextCells(s[..width], pen.color, pen.style), width)] + Chunks(s[width..], width, pen)
  {
    var cells := TextCells(s[..width], pen.color, pen.style);
    assert Pad(cells, width) == cells;
  }

  // The text above the cursor's row.
  function Above(g: Grid): seq<Row>
    requires |g.rows| > 0
  {
    Text(g)[..|Text(g)| - 1]
  }

  lemma RowTyped(c: Config, t: Term, s: seq<CodeUnit>)
    requires AtBottom(c, t) && |s| <= c.width
    ensures var row := Pad(TextCells(s, t.pen.color, t.pen.style), c.width);
      && Typed(c, t, s).page == t.page.(rows := t.page.rows[c.height - 1 := row])
      && Text(Typed(c, t, s).page) == Above(t.page) + [row]
  {
    var cells := TextCells(s, t.pen.color, t.pen.style);
    SpliceReplaces(BlankRow(c.width), 0, cells);
    assert Replaced(BlankRow(c.width), 0, cells) == Pad(cells, c.width);
    if s == [] {
      assert Pad(cells, c.width) == BlankRow(c.width);
      assert t.page.rows[c.height - 1 := BlankRow(c.width)] == t.page.rows;
    } else {
      assert Fitting(s, c.width) == s;
    }
  }

  lemma FullRow(c: Config, t: Term, s: seq<CodeUnit>)
    requires AtBottom(c, t) && |s| == c.width
    ensures var u := Typed(c, t, s);
      && u.page.Fits(c.width, c.height) && Writing(u) && u.modes == t.modes && u.sets == t.sets && u.pen == t.pen
      && u.needWrap && !u.alternate && u.top == t.top && u.bottom == t.bottom && u.y == t.y
  {
    RowTyped(c, t, s);
  }

  lemma NextRow(c: Config, t: Term)
    requires Sound(c, t) && t.page.Fits(c.width, c.height) && Writing(t) && t.modes.autoWrap && t.needWrap
    requires !t.alternate && t.top == 0 && t.bottom == c.height && t.y == c.height - 1
    ensures var p := Prepared(c, t);
      && AtBottom(c, p) && p.sets == t.sets && p.modes == t.modes && p.pen == t.pen
      && Text(p.page) == Last(Text(t.page) + [BlankRow(c.width)], MAX_SCROLLBACK + c.height)
  {
    hide LineFeed, Scroll;
    var t1 := Cr(c, t);
    var blank := BlankRow(c.width);
    PreparedWrites(c, t);
    assert Prepared(c, t) == LineFeed(c, t1);
    FeedsScroll(c, t1);
    ScrolledText(t.page, blank, c.height);
    var rows := RowsDeleted(t.page.rows, 0, c.height, 1, blank);
    assert forall i :: 0 <= i < c.height - 1 ==> rows[i] == t.page.rows[i + 1];
  }

  lemma LastAbove(a: seq<Row>, blank: Row, more: seq<Row>, n: nat)
    requires |more| > 0 && n > 0
    ensures var l := Last(a + [blank], n); Last(l[..|l| - 1] + more, n) == Last(a + more, n)
  {
    var l, m := Last(a + [blank], n), |a| + 1;
    if m <= n {
      assert l[..|l| - 1] == a;
    } else {
      assert l == (a + [blank])[m - n..];
      assert l[..|l| - 1] == a[m - n..];
      assert a[m - n..] + more == (a + more)[m - n..];
      LastOfRest(a + more, m - n, n);
    }
  }

  lemma LastOfRest(s: seq<Row>, i: nat, n: nat)
    requires i + n <= |s|
    ensures Last(s[i..], n) == Last(s, n)
  {
    var k := |s| - i - n;
    assert s[i..][k..] == s[i + k..];
    assert s[i..][0..] == s[i..];
  }

  lemma TypingFits(c: Config, t: Term, s: seq<CodeUnit>, nested: bool)
    requires AtBottom(c, t) && AllTypeable(c, t.sets, t.modes, s) && |s| <= c.width
    ensures Text(Process(c, t, s, nested).page)
            == Last(Above(t.page) + Chunks(s, c.width, t.pen), MAX_SCROLLBACK + c.height)
  {
    hide Process, Typed, Typeable, TextCells;
    TypeOnRow(c, t, s, nested);
    RowTyped(c, t, s);
  }

  /** Text of any length typed at the bottom of the screen is broken into rows that
      follow the earlier text; no character is lost before it is 500 rows above the
      screen. */
  lemma {:induction false} TypingAppends(c: Config, t: Term, s: seq<CodeUnit>, nested: bool)
    requires AtBottom(c, t) && AllTypeable(c, t.sets, t.modes, s)
    ensures Text(Process(c, t, s, nested).page)
            == Last(Above(t.page) + Chunks(s, c.width, t.pen), MAX_SCROLLBACK + c.height)
    decreases |s|
  {
    hide Process, Replies, Typeable, Prepared, Typed, TextCells, Chunks, Text, Last;
    if |s| <= c.width {
      TypingFits(c, t, s, nested);
    } else {
      var s1, s2 := s[..c.width], s[c.width..];
      assert s == s1 + s2;
      ProcessConcat(c, t, s1, s2, nested);
      TypeOnRow(c, t, s1, nested);
      RowTyped(c, t, s1);
      var u := Typed(c, t, s1);
      FullRow(c, t, s1);
      WrapFirst(c, u, s2, nested);
      NextRow(c, u);
      TypingAppends(c, Prepared(c, u), s2, nested);
      ChunkNext(Above(t.page), s, c.width, t.pen);
      LastAbove(Text(u.page), BlankRow(c.width), Chunks(s2, c.width, t.pen), MAX_SCROLLBACK + c.height);
    }
  }
}
