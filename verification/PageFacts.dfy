/** Facts about the two pages of the terminal, and about saving the cursor. */
module PageFacts {
  import opened Cells
  import opened Grid
  import opened TermSpec
  import opened TermFacts

  // Whether the cursor may be placed on its own row.
  predicate InReach(t: Term) {
    t.modes.offset ==> t.top <= t.y < t.bottom
  }

  /** A saved cursor is restored, with its attributes and made readable, exactly if
      origin mode does not keep it out of its row. */
  lemma SavedRestores(c: Config, t: Term)
    requires Sound(c, t)
    ensures var r := RestoreCursor(c, SaveCursor(t));
      && r.page == t.page && r.x == t.x && r.pen == PenFor(t.pen.attr) && r.sets.g == t.sets.g && r.sets.use == t.sets.use
      && (r.y == t.y <==> InReach(t))
  {
  }

  /** The alternate screen leaves the normal one as it was, cursor and history
      included. */
  lemma AlternateReturns(c: Config, t: Term)
    requires Sound(c, t) && !t.alternate
    ensures var r := EnableAlternate(c, EnableAlternate(c, t, true), false);
      && r.page == t.page && !r.alternate && r.x == t.x && (r.y == t.y <==> InReach(t))
      && r.top == t.top && r.bottom == t.bottom && r.modes == t.modes
  {
    hide Clear;
  }

  // The page that is not on display, and the cursor saved with the normal one.
  predicate SameOther(t: Term, u: Term) {
    u.other == t.other && u.alternate == t.alternate && (t.alternate ==> u.saved == t.saved)
  }

  // A change of the page on display that keeps the other one.
  predicate KeepsOther(t: Term, u: Term) {
    u.alternate == t.alternate ==> SameOther(t, u)
  }

  lemma {:induction false} FeedsKeepOther(c: Config, t: Term, n: nat)
    requires Sound(c, t)
    ensures SameOther(t, Lf(c, t, n)) && SameOther(t, RiTimes(c, t, n))
    decreases n
  {
    hide LineFeed, ReverseFeed, Sound;
    if n > 0 {
      FeedKeepsOther(c, t);
      FeedsKeepOther(c, LineFeed(c, t), n - 1);
      FeedsKeepOther(c, ReverseFeed(c, t), n - 1);
    }
  }

  lemma FeedKeepsOther(c: Config, t: Term)
    requires Sound(c, t)
    ensures SameOther(t, LineFeed(c, t)) && SameOther(t, ReverseFeed(c, t))
  {
    hide Scroll;
  }

  lemma MovesKeepOther(c: Config, t: Term, ch: CodeUnit)
    requires Sound(c, t)
    ensures SameOther(t, ControlMove(c, t, ch))
  {
    hide Lf, RiTimes, TabRight;
    FeedsKeepOther(c, t, 1);
    FeedsKeepOther(c, Cr(c, t), 1);
  }

  lemma DrawKeepsOther(c: Config, t: Term, ch: CodeUnit)
    requires Sound(c, t)
    ensures SameOther(t, Draw(c, t, ch))
  {
    hide Scroll, Lf, Splice;
    FeedsKeepOther(c, Cr(c, t), 1);
  }

  lemma ModeKeepsOther(c: Config, t: Term, par: nat, state: bool)
    requires Sound(c, t)
    ensures var r := SetMode(c, t, par, state);
      SameOther(t, r) || (t.alternate != state && r.alternate == state)
  {
    hide Clear;
  }

  // A sequence that sets modes switches pages at most once, since it sets or
  // resets all of its modes.
  lemma {:induction false} ModesKeepOther(c: Config, t: Term, i: nat, state: bool)
    requires Sound(c, t)
    ensures var r := SetModes(c, t, i, state);
      SameOther(t, r) || (t.alternate != state && r.alternate == state)
    decreases t.parser.npar + 1 - i
  {
    hide SetMode, Sound;
    if i <= t.parser.npar {
      if Given(t.parser, i) {
        ModeKeepsOther(c, t, Par(t.parser, i), state);
        ModesKeepOther(c, SetMode(c, t, Par(t.parser, i), state), i + 1, state);
      } else {
        ModesKeepOther(c, t, i + 1, state);
      }
    }
  }

  lemma RenditionKeepsOther(c: Config, t: Term, par: nat)
    requires Sound(c, t)
    ensures var r := Rendition(t, par); Sound(c, r) && SameOther(t, r) && r.parser == t.parser
  {
    hide PenFor, RenditionAttr;
  }

  lemma {:induction false} RenditionsKeepOther(c: Config, t: Term, i: nat)
    requires Sound(c, t)
    ensures SameOther(t, Renditions(c, t, i))
    decreases t.parser.npar + 1 - i
  {
    hide Rendition, PenFor;
    if i <= t.parser.npar {
      RenditionKeepsOther(c, t, Par(t.parser, i));
      RenditionsKeepOther(c, if Given(t.parser, i) then Rendition(t, Par(t.parser, i)) else t, i + 1);
    }
  }

  lemma GotoKeepsOther(c: Config, t: Term, ch: CodeUnit)
    requires Sound(c, t)
    ensures SameOther(t, CsiGoto(c, t, ch))
  {
  }

  lemma TravelKeepsOther(c: Config, t: Term, ch: CodeUnit)
    requires Sound(c, t)
    ensures SameOther(t, CsiTravel(c, t, ch))
  {
    hide Lf, RiTimes, TabRight, TabLeft, PenFor;
    FeedsKeepOther(c, t, ClampCount(c, Par1(t.parser, 0)));
  }

  lemma EditKeepsOther(c: Config, t: Term, ch: CodeUnit)
    requires Sound(c, t)
    ensures SameOther(t, CsiEdit(c, t, ch))
  {
    hide Scroll, Clear;
  }

  lemma OthersKeepOther(c: Config, t: Term, ch: CodeUnit)
    requires Sound(c, t)
    ensures KeepsOther(t, CsiOther(c, t, ch))
  {
    hide SetModes, Renditions;
    RenditionsKeepOther(c, t, 0);
    ModesKeepOther(c, t, 0, true);
    ModesKeepOther(c, t, 0, false);
  }

  lemma EndKeepsOther(c: Config, t: Term, ch: CodeUnit)
    requires Sound(c, t)
    ensures KeepsOther(t, CsiEnd(c, t, ch).0)
  {
    hide CsiGoto, CsiTravel, CsiEdit, CsiOther, SetModes;
    var n := WithEsc(t, Normal);
    GotoKeepsOther(c, n, ch);
    TravelKeepsOther(c, n, ch);
    EditKeepsOther(c, n, ch);
    OthersKeepOther(c, n, ch);
    ModesKeepOther(c, n, 0, true);
    ModesKeepOther(c, n, 0, false);
  }

  lemma ResetKeepsOther(c: Config, t: Term)
    requires Sound(c, t)
    ensures KeepsOther(t, Reset(c, t))
  {
    hide Clear, PenFor;
  }

  lemma EscapeKeepsOther(c: Config, t: Term, ch: CodeUnit)
    requires Sound(c, t)
    ensures KeepsOther(t, AfterEscape(c, t, ch))
  {
    hide Lf, RiTimes, Reset, PenFor;
    var n := WithEsc(t, EscapeNext(ch));
    FeedsKeepOther(c, n, 1);
    FeedsKeepOther(c, Cr(c, n), 1);
    ResetKeepsOther(c, n);
  }

  lemma CsiKeepsOther(c: Config, t: Term, ch: CodeUnit)
    requires Sound(c, t)
    ensures KeepsOther(t, AfterCsi(c, t, ch).0) && KeepsOther(t, CsiParameter(c, t, ch).0)
  {
    hide CsiEnd;
    EndKeepsOther(c, t, ch);
    EndKeepsOther(c, t.(parser := Parser(GetPars, 0, map[], false)), ch);
  }

  lemma InEscapeKeepsOther(c: Config, t: Term, ch: CodeUnit)
    requires Sound(c, t)
    ensures KeepsOther(t, InEscape(c, t, ch).0)
  {
    hide AfterEscape, AfterCsi, CsiParameter, Sound;
    EscapeKeepsOther(c, t, ch);
    CsiKeepsOther(c, t, ch);
  }

  lemma ControlKeepsOther(c: Config, t: Term, ch: CodeUnit)
    requires Sound(c, t)
    ensures KeepsOther(t, Control(c, t, ch).0)
  {
    hide ControlMove, InEscape, Sound;
    MovesKeepOther(c, t, ch);
    InEscapeKeepsOther(c, t, ch);
  }

  lemma ActKeepsOther(c: Config, t: Term, ch: CodeUnit)
    requires Sound(c, t)
    ensures KeepsOther(t, Act(c, t, ch).0)
  {
    hide Control, Draw, IsNormal, ToGlyph, Sound;
    ControlKeepsOther(c, t, ch);
    var glyph := ToGlyph(if ch < 256 then c.Lookup(t.sets.translate, ToggleMeta(t, ch)) else ch);
    if glyph.Glyph? {
      DrawKeepsOther(c, t, glyph.ch);
    }
  }

  lemma FeedKeepsOtherPage(c: Config, t: Term, ch: CodeUnit)
    requires Sound(c, t)
    ensures KeepsOther(t, Feed(c, t, ch).0)
  {
    hide Act, Decode;
    if t.modes.utf {
      var (utf, glyph) := Decode(t.utf, ch);
      if glyph.Glyph? {
        ActKeepsOther(c, t.(utf := utf), glyph.ch);
      }
    } else {
      ActKeepsOther(c, t, ch);
    }
  }

  // A character that an expansion repeats never switches pages.
  lemma RepeatSamePage(c: Config, t: Term, ch: CodeUnit)
    requires Sound(c, t) && !t.modes.printing && (t.parser.esc == Normal || Leads(ch, t.parser.esc))
    ensures SameOther(t, Act(c, t, ch).0)
  {
    hide Draw, ControlMove, AfterEscape, CsiEnd, IsNormal, ToGlyph, Sound;
    MovesKeepOther(c, t, ch);
    var glyph := ToGlyph(if ch < 256 then c.Lookup(t.sets.translate, ToggleMeta(t, ch)) else ch);
    if glyph.Glyph? {
      DrawKeepsOther(c, t, glyph.ch);
    }
  }

  lemma FeedSamePage(c: Config, t: Term, ch: CodeUnit)
    requires Sound(c, t) && Repeating(t, ch)
    ensures SameOther(t, Feed(c, t, ch).0)
  {
    hide Act, Decode;
    if t.modes.utf {
      var (utf, glyph) := Decode(t.utf, ch);
      if glyph.Glyph? {
        RepeatingDecodes(t, ch);
        RepeatSamePage(c, t.(utf := utf), ch);
      }
    } else {
      RepeatSamePage(c, t, ch);
    }
  }

  lemma RepeatingDecodes(t: Term, ch: CodeUnit)
    requires Repeating(t, ch) && t.modes.utf && UtfOk(t.utf)
    ensures Decode(t.utf, ch).1.Glyph? ==> Decode(t.utf, ch).1.ch == ch
  {
  }

  lemma {:induction false} NestedSamePage(c: Config, t: Term, s: seq<CodeUnit>)
    requires Sound(c, t) && Quiet(t, s)
    ensures SameOther(t, Process(c, t, s, true))
    decreases |s|
  {
    hide Feed, Sound, Repeating;
    if s != [] {
      var rest := s[..|s| - 1];
      NestedSamePage(c, t, rest);
      NestedNeverExpands(c, t, rest, s[0]);
      FeedSamePage(c, Process(c, t, rest, true), s[0]);
    }
  }

  /** Unless it switches pages, a character of input leaves the other page alone. */
  lemma OtherPageSafe(c: Config, t: Term, ch: CodeUnit, nested: bool)
    requires Sound(c, t)
    ensures KeepsOther(t, Step(c, t, ch, nested))
  {
    hide Feed, Process, Sound, Quiet;
    FeedKeepsOtherPage(c, t, ch);
    FeedExpands(c, t, ch);
    NestedSamePage(c, Feed(c, t, ch).0, Feed(c, t, ch).1);
  }

  // Input that never leaves the alternate screen.
  predicate StaysAlternate(c: Config, t: Term, s: seq<CodeUnit>)
    requires Sound(c, t)
  {
    forall i :: 0 <= i <= |s| ==> Process(c, t, s[..i], false).alternate
  }

  /** While a full-screen program draws on the alternate screen, the text and the
      history of the normal one stay as they were, whatever it sends. */
  lemma {:induction false} NormalPageSafe(c: Config, t: Term, s: seq<CodeUnit>)
    requires Sound(c, t) && t.alternate && StaysAlternate(c, t, s)
    ensures SameOther(t, Process(c, t, s, false))
    decreases |s|
  {
    hide Step, Sound;
    assert s[..|s|] == s;
    if s != [] {
      var init := s[..|s| - 1];
      forall i | 0 <= i <= |init|
        ensures Process(c, t, init[..i], false).alternate
      {
        assert init[..i] == s[..i];
      }
      NormalPageSafe(c, t, init);
      OtherPageSafe(c, Process(c, t, init, false), s[|s| - 1], false);
    }
  }

  // What leaving the alternate screen brings back.
  lemma NormalComesBack(c: Config, u: Term)
    requires Sound(c, u) && u.alternate && 0 <= u.saved.x < c.width && 0 <= u.saved.y < c.height
    ensures var r := EnableAlternate(c, u, false);
      && !r.alternate && r.page == u.other && r.x == u.saved.x && r.pen == PenFor(u.saved.attr)
      && (r.y == u.saved.y <==> (u.modes.offset ==> u.top <= u.saved.y < u.bottom))
  {
    hide Clear, PenFor;
  }

  lemma NormalGoesAside(c: Config, t: Term)
    requires Sound(c, t) && !t.alternate
    ensures var u := EnableAlternate(c, t, true);
      u.alternate && u.other == t.page && u.saved == Saved(true, t.x, t.y, t.pen.attr)
  {
    hide Clear;
  }

  /** Whatever a full-screen program did meanwhile: leaving its screen brings back the
      page with its history, the cursor's column and the attributes, and the cursor's
      row exactly if the origin mode and the region that the program left allow it. */
  lemma AlternateRestores(c: Config, t: Term, s: seq<CodeUnit>)
    requires Sound(c, t) && !t.alternate && StaysAlternate(c, EnableAlternate(c, t, true), s)
    ensures var u := Process(c, EnableAlternate(c, t, true), s, false);
      var r := EnableAlternate(c, u, false);
      && !r.alternate && r.page == t.page && r.x == t.x && r.pen == PenFor(t.pen.attr)
      && (r.y == t.y <==> (u.modes.offset ==> u.top <= t.y < u.bottom))
  {
    var t1 := EnableAlternate(c, t, true);
    NormalGoesAside(c, t);
    hide EnableAlternate, Process, PenFor, StaysAlternate;
    NormalPageSafe(c, t1, s);
    NormalComesBack(c, Process(c, t1, s, false));
  }
}
