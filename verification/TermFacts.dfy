/** Facts about the terminal's input, one character at a time. */
module TermFacts {
  import opened Cells
  import opened Grid
  import opened TermSpec
  import opened Display

  lemma DrawnNothing(c: Config, t: Term)
    requires Sound(c, t)
    ensures Drawn(c, t, []) == t
  {
    PutNothing(t.page, t.x, t.y, TextCells([], t.pen.color, t.pen.style));
  }

  lemma PutOverLast(g: Grid, x: nat, y: nat, a: Row, b: Row, b': Row)
    requires y < |g.rows| && |b| == |b'|
    ensures g.Put(x, y, a + b).Put(x + |a|, y, b') == g.Put(x, y, a + b')
  {
    SpliceAt(g.rows[y], x, a + b);
    SpliceAt(Splice(g.rows[y], x, a + b), x + |a|, b');
    SpliceAt(g.rows[y], x, a + b');
    assert Splice(Splice(g.rows[y], x, a + b), x + |a|, b') == Splice(g.rows[y], x, a + b');
  }

  lemma PutBehindFitting(g: Grid, x: nat, y: nat, buf: seq<CodeUnit>, ch: CodeUnit, cls: Class, style: Style)
    requires y < |g.rows|
    ensures g.Put(x, y, TextCells(buf, cls, style)).Put(x + |buf|, y, TextCells([ch], cls, style))
            == g.Put(x, y, TextCells(buf + [ch], cls, style))
  {
    hide Splice, TextCells;
    LineEdit.TextCellsConcat(buf, [ch], cls, style);
    PutTwice(g, x, y, TextCells(buf, cls, style), TextCells([ch], cls, style));
  }

  lemma PutOverFitting(g: Grid, x: nat, y: nat, kept: seq<CodeUnit>, last: CodeUnit, ch: CodeUnit, cls: Class, style: Style)
    requires y < |g.rows|
    ensures g.Put(x, y, TextCells(kept + [last], cls, style)).Put(x + |kept|, y, TextCells([ch], cls, style))
            == g.Put(x, y, TextCells(kept + [ch], cls, style))
  {
    hide Splice, TextCells;
    LineEdit.TextCellsConcat(kept, [last], cls, style);
    LineEdit.TextCellsConcat(kept, [ch], cls, style);
    PutOverLast(g, x, y, TextCells(kept, cls, style), TextCells([last], cls, style), TextCells([ch], cls, style));
  }

  // Text cut off at the right border, and then one more character: it replaces
  // the last one when there is no room.
  lemma PutFitting(g: Grid, x: nat, y: nat, buf: seq<CodeUnit>, ch: CodeUnit, cls: Class, style: Style, room: nat)
    requires y < |g.rows| && room > 0
    ensures g.Put(x, y, TextCells(Fitting(buf, room), cls, style))
             .Put(x + Min(|buf|, room - 1), y, TextCells([ch], cls, style))
            == g.Put(x, y, TextCells(Fitting(buf + [ch], room), cls, style))
  {
    hide Splice, TextCells;
    if |buf| < room {
      PutBehindFitting(g, x, y, buf, ch, cls, style);
    } else {
      var kept, last := Fitting(buf, room)[..room - 1], Fitting(buf, room)[room - 1];
      assert Fitting(buf, room) == kept + [last] && Fitting(buf + [ch], room) == kept + [ch];
      PutOverFitting(g, x, y, kept, last, ch, cls, style);
    }
  }

  /** One more character, drawn after the pending ones, is drawn together with
      them: what coalescing relies on. */
  lemma DrawExtends(c: Config, t: Term, buf: seq<CodeUnit>, ch: CodeUnit)
    requires Sound(c, t) && !t.modes.printing
    ensures var wrap := t.x + |buf| + 1 >= c.width;
      DrawHere(c, Drawn(c, t, buf), ch)
      == Drawn(c, t.(last := ch, needWrap := if wrap then t.modes.autoWrap else t.needWrap), buf + [ch])
  {
    hide Fitting, Splice;
    PutFitting(t.page, t.x, t.y, buf, ch, t.pen.color, t.pen.style, c.width - t.x);
    assert TextCells([ch], t.pen.color, t.pen.style) == [MakeCell(ch, t.pen.color, t.pen.style)];
  }

  lemma ProcessNothing(c: Config, t: Term, nested: bool)
    requires Sound(c, t)
    ensures Process(c, t, [], nested) == t && Replies(c, t, [], nested) == []
  {
    hide Step, StepReplies, Sound;
  }

  lemma ProcessNext(c: Config, t: Term, s: seq<CodeUnit>, i: nat, nested: bool)
    requires Sound(c, t) && i < |s|
    ensures var t1 := Process(c, t, s[..i], nested);
      && Process(c, t, s[..i + 1], nested) == Step(c, t1, s[i], nested)
      && Replies(c, t, s[..i + 1], nested) == Replies(c, t, s[..i], nested) + StepReplies(c, t1, s[i], nested)
  {
    hide Step, StepReplies, Sound;
    assert s[..i + 1][..i] == s[..i];
  }

  /** The input may be cut anywhere. */
  lemma {:induction false} ProcessConcat(c: Config, t: Term, a: seq<CodeUnit>, b: seq<CodeUnit>, nested: bool)
    requires Sound(c, t)
    ensures Process(c, t, a + b, nested) == Process(c, Process(c, t, a, nested), b, nested)
    ensures Replies(c, t, a + b, nested) == Replies(c, t, a, nested) + Replies(c, Process(c, t, a, nested), b, nested)
    decreases |b|
  {
    hide Step, StepReplies, Sound;
    if b == [] {
      assert a + b == a;
    } else {
      ProcessConcat(c, t, a, b[..|b| - 1], nested);
      assert (a + b)[..|a + b| - 1] == a + b[..|b| - 1];
    }
  }

  // ---- Expansions ----

  predicate AllAre(s: seq<CodeUnit>, ch: CodeUnit) {
    forall i :: 0 <= i < |s| ==> s[i] == ch
  }

  // The parser state that a control character leads to from anywhere.
  predicate Leads(ch: CodeUnit, e: Esc) {
    || (ch == 0x1B && e == Escape) || (ch == 0x9B && e == Square)
    || (ch == 0x8E && e == Shift(0)) || (ch == 0x8F && e == Shift(1))
  }

  /** The states in which an expansion of `ch`s is processed: no sequence that the
      character itself does not start over, and no half-read byte sequence that it
      would complete. */
  predicate Repeating(t: Term, ch: CodeUnit) {
    && !t.modes.printing
    && (t.parser.esc == Normal || Leads(ch, t.parser.esc))
    && (t.modes.utf && ch > 0x7F ==> t.utf.count == 0 || !Continues(ch))
  }

  // Text of one character, in a state in which it never expands.
  predicate Quiet(t: Term, s: seq<CodeUnit>) {
    s != [] ==> AllAre(s, s[0]) && Repeating(t, s[0])
  }

  // Drawing and moving leave the modes and both decoders alone.
  predicate SameDecoders(t: Term, u: Term) {
    u.modes == t.modes && u.parser == t.parser && u.utf == t.utf
  }

  lemma FeedKeeps(c: Config, t: Term)
    requires Sound(c, t)
    ensures SameDecoders(t, LineFeed(c, t)) && SameDecoders(t, ReverseFeed(c, t))
  {
    hide Scroll;
  }

  lemma {:induction false} FeedsKeep(c: Config, t: Term, n: nat)
    requires Sound(c, t)
    ensures SameDecoders(t, Lf(c, t, n)) && SameDecoders(t, RiTimes(c, t, n))
    decreases n
  {
    hide LineFeed, ReverseFeed, Sound;
    if n > 0 {
      FeedKeeps(c, t);
      FeedsKeep(c, LineFeed(c, t), n - 1);
      FeedsKeep(c, ReverseFeed(c, t), n - 1);
    }
  }

  lemma MovesKeep(c: Config, t: Term, ch: CodeUnit)
    requires Sound(c, t)
    ensures SameDecoders(t, ControlMove(c, t, ch))
  {
    hide Lf, RiTimes, TabRight;
    FeedsKeep(c, t, 1);
    FeedsKeep(c, Cr(c, t), 1);
  }

  lemma DrawKeeps(c: Config, t: Term, ch: CodeUnit)
    requires Sound(c, t)
    ensures SameDecoders(t, Draw(c, t, ch))
  {
    hide Scroll, Lf, Splice;
    FeedsKeep(c, Cr(c, t), 1);
  }

  lemma NormalStays(c: Config, t: Term, ch: CodeUnit)
    requires Sound(c, t) && t.parser.esc == Normal
    ensures var (t1, e) := InEscape(c, t, ch);
      e == [] && t1.modes == t.modes && t1.parser.esc == Normal && t1.utf == t.utf
  {
    hide AfterEscape, AfterCsi, CsiParameter, SingleShift, Sound;
  }

  lemma SettingRepeats(c: Config, t: Term, ch: CodeUnit)
    requires Sound(c, t) && ControlsState(ch) && (t.parser.esc == Normal || Leads(ch, t.parser.esc))
    ensures var t1 := ControlState(c, t, ch);
      && t1.modes.printing == t.modes.printing && (t1.parser.esc == Normal || Leads(ch, t1.parser.esc))
      && t1.modes.utf == t.modes.utf && t1.utf == t.utf
  {
    hide Sound;
    var t1 := ControlState(c, t, ch);
    if ch == 0x0E || ch == 0x0F {
    } else if ch == 0x88 {
    } else {
      assert t1 == t || t1 == WithEsc(t, t1.parser.esc);
    }
  }

  lemma ControlRepeats(c: Config, t: Term, ch: CodeUnit)
    requires Sound(c, t) && !t.modes.printing && (t.parser.esc == Normal || Leads(ch, t.parser.esc))
    ensures var (t1, e) := Control(c, t, ch);
      && e == [] && !t1.modes.printing && (t1.parser.esc == Normal || Leads(ch, t1.parser.esc))
      && t1.modes.utf == t.modes.utf && t1.utf == t.utf
  {
    hide ControlMove, ControlState, InEscape, Sound;
    if ControlMoves(ch) {
      MovesKeep(c, t, ch);
    } else if ControlsState(ch) {
      SettingRepeats(c, t, ch);
    } else if !ControlsState(ch) && t.parser.esc == Normal {
      NormalStays(c, t, ch);
    }
  }

  lemma ActRepeats(c: Config, t: Term, ch: CodeUnit)
    requires Sound(c, t) && !t.modes.printing && (t.parser.esc == Normal || Leads(ch, t.parser.esc))
    ensures var (t1, e) := Act(c, t, ch);
      && e == [] && !t1.modes.printing && (t1.parser.esc == Normal || Leads(ch, t1.parser.esc))
      && t1.modes.utf == t.modes.utf && t1.utf == t.utf
  {
    hide Draw, Control, IsNormal, Sound, ToGlyph;
    if IsNormal(t.modes, ch) && t.parser.esc == Normal {
      var glyph := ToGlyph(if ch < 256 then c.Lookup(t.sets.translate, ToggleMeta(t, ch)) else ch);
      if glyph.Glyph? {
        DrawKeeps(c, t, glyph.ch);
      }
    } else {
      ControlRepeats(c, t, ch);
    }
  }

  lemma FeedRepeats(c: Config, t: Term, ch: CodeUnit)
    requires Sound(c, t) && Repeating(t, ch)
    ensures var (t1, e) := Feed(c, t, ch); e == [] && Repeating(t1, ch)
  {
    hide Act, StartUtf;
    if t.modes.utf {
      var (utf, glyph) := Decode(t.utf, ch);
      if ch <= 0x7F {
        ActRepeats(c, t.(utf := utf), ch);
      }
    } else {
      ActRepeats(c, t, ch);
    }
  }

  lemma CsiExpands(c: Config, t: Term, ch: CodeUnit)
    requires Sound(c, t)
    ensures var (t1, e) := CsiEnd(c, t, ch);
      e != [] ==> t1.parser.esc == Normal && AllAre(e, e[0]) && t1.modes == t.modes && t1.utf == t.utf
  {
    hide CsiPrivate, CsiGoto, CsiTravel, CsiEdit, CsiOther, Sound;
  }

  // Only a repetition or a single shift expands, and ends its sequence.
  lemma EscapeExpands(c: Config, t: Term, ch: CodeUnit)
    requires Sound(c, t)
    ensures var (t1, e) := InEscape(c, t, ch);
      e != [] ==> t1.parser.esc == Normal && AllAre(e, e[0]) && t1.modes == t.modes && t1.utf == t.utf
  {
    hide AfterEscape, CsiEnd, ToGlyph;
    if t.parser.esc == Square {
      CsiExpands(c, t.(parser := Parser(GetPars, 0, map[], false)), ch);
    } else {
      CsiExpands(c, t, ch);
    }
  }

  lemma ActExpands(c: Config, t: Term, ch: CodeUnit)
    requires Sound(c, t)
    ensures var (t1, e) := Act(c, t, ch);
      e != [] ==> !t1.modes.printing && t1.parser.esc == Normal && AllAre(e, e[0]) && t1.modes == t.modes
                  && t1.utf == t.utf
  {
    hide Draw, ControlMove, ControlState, Printer, InEscape, IsNormal, ToGlyph, Sound;
    EscapeExpands(c, t, ch);
  }

  /** Text handed back is one character over and over, and processing it never
      expands again. */
  lemma FeedExpands(c: Config, t: Term, ch: CodeUnit)
    requires Sound(c, t)
    ensures var (t1, e) := Feed(c, t, ch); Quiet(t1, e)
  {
    hide Act, StartUtf;
    if t.modes.utf {
      var (utf, glyph) := Decode(t.utf, ch);
      if glyph.Glyph? {
        ActExpands(c, t.(utf := utf), glyph.ch);
      }
    } else {
      ActExpands(c, t, ch);
    }
  }

  lemma QuietSteps(c: Config, t: Term, s: seq<CodeUnit>, i: nat)
    requires Sound(c, t) && Quiet(t, s) && i < |s|
    ensures Feed(c, Process(c, t, s[..i], true), s[i]).1 == []
  {
    hide Feed, Process, Sound, Repeating;
    NestedNeverExpands(c, t, s[..i], s[0]);
    FeedRepeats(c, Process(c, t, s[..i], true), s[0]);
  }

  lemma {:induction false} NestedNeverExpands(c: Config, t: Term, s: seq<CodeUnit>, ch: CodeUnit)
    requires Sound(c, t) && Repeating(t, ch) && AllAre(s, ch)
    ensures Repeating(Process(c, t, s, true), ch)
    ensures Process(c, t, s, true) == Process(c, t, s, false)
    decreases |s|
  {
    hide Feed, Sound, Repeating;
    if s != [] {
      var rest := s[..|s| - 1];
      NestedNeverExpands(c, t, rest, ch);
      FeedRepeats(c, Process(c, t, rest, true), ch);
    }
  }
}
