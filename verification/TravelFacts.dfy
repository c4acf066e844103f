/** Tabs, scrolling and repetition by count, and the switches of a few characters. */
module TravelFacts {
  import opened Rows
  import opened Cells
  import opened TermSpec
  import opened TermFacts
  import opened ScreenFacts
  import opened SequenceFacts
  import opened MotionFacts
  import opened EditFacts
  import opened SwitchFacts

  // ---- Tabs ----

  // The cursor at a column, in a row where it may be; nothing happens if it is there.
  function AtColumn(c: Config, t: Term, x: int): (r: Term)
    requires Sound(c, t)
    ensures Sound(c, r)
  {
    if x == t.x then t else Sent(c, t, x, t.y)
  }

  // Column `x` is the next tab stop behind the cursor, or the last column.
  predicate NextStop(c: Config, t: Term, x: int) {
    && t.x <= x < c.width && (t.x < c.width - 1 ==> t.x < x)
    && (forall i :: t.x < i < x ==> !IsTab(t.tabs, i)) && (IsTab(t.tabs, x) || x == c.width - 1)
  }

  // The one before it, or the first column.
  predicate PreviousStop(t: Term, x: int) {
    && 0 <= x <= t.x && (t.x > 0 ==> x < t.x)
    && (forall i :: x < i < t.x ==> !IsTab(t.tabs, i)) && (IsTab(t.tabs, x) || x == 0)
  }

  // The columns of the two.
  function StopRight(c: Config, t: Term): int {
    Min(NextTab(t.tabs, t.x, c.width), c.width - 1)
  }

  function StopLeft(t: Term): int {
    if PreviousTab(t.tabs, t.x) < 0 then 0 else PreviousTab(t.tabs, t.x)
  }

  lemma StopsRight(c: Config, t: Term)
    requires Sound(c, t)
    ensures NextStop(c, t, StopRight(c, t)) && Ht(c, t, 1) == AtColumn(c, t, StopRight(c, t))
  {
    hide NextTab, IsTab;
    NextTabIsFirst(t.tabs, t.x, c.width);
    assert TabRight(t.tabs, t.x, 1, c.width) == NextTab(t.tabs, t.x, c.width);
    GotoSends(c, t, StopRight(c, t), t.y);
  }

  lemma StopsLeft(c: Config, t: Term)
    requires Sound(c, t)
    ensures PreviousStop(t, StopLeft(t)) && Rt(c, t, 1) == AtColumn(c, t, StopLeft(t))
  {
    hide PreviousTab, IsTab;
    assert TabLeft(t.tabs, t.x, 1) == PreviousTab(t.tabs, t.x);
    if t.x > 0 {
      PreviousTabIsLast(t.tabs, t.x);
    }
    GotoSends(c, t, StopLeft(t), t.y);
  }

  /** A tab goes to the next tab stop. */
  lemma TabGoes(c: Config, t: Term, nested: bool)
    requires Sound(c, t) && !t.modes.printing && !t.modes.dispCtrl
    ensures Process(c, t, [0x09], nested) == AtColumn(c, Heard(t), StopRight(c, t)) && NextStop(c, t, StopRight(c, t))
  {
    hide Process, Ht, Rt, IsTab, AtColumn;
    ControlActs(c, t, 0x09, nested);
    StopsRight(c, Heard(t));
  }

  // The eighth columns around a column.
  function EighthAfter(x: nat): (k: nat)
    ensures x < k <= x + 8 && k % 8 == 0
  {
    (x / 8 + 1) * 8
  }

  function EighthBefore(x: nat): (k: nat)
    requires x > 0
    ensures x - 8 <= k < x && k % 8 == 0
  {
    (x - 1) / 8 * 8
  }

  /** Without stops set or cleared, that is the next eighth column. */
  lemma DefaultStops(c: Config, t: Term)
    requires Sound(c, t) && t.tabs == map[]
    ensures StopRight(c, t) == Min(EighthAfter(t.x), c.width - 1)
    ensures StopLeft(t) == if t.x == 0 then 0 else EighthBefore(t.x)
  {
    assert t.x >= 0;
    hide StopRight, StopLeft, NextStop, AtColumn, Ht, Rt, Sound, EighthAfter, EighthBefore;
    StopsRight(c, t);
    StopsLeft(c, t);
    OneStop(c, t, StopRight(c, t), EighthAfter(t.x));
    if t.x > 0 {
      OneStopBack(t, StopLeft(t), EighthBefore(t.x));
    }
  }

  lemma OneStop(c: Config, t: Term, x: int, k: nat)
    requires Sound(c, t) && t.tabs == map[] && NextStop(c, t, x) && t.x < k <= t.x + 8 && k % 8 == 0
    ensures x == Min(k, c.width - 1)
  {
    assert IsTab(t.tabs, k);
  }

  lemma OneStopBack(t: Term, x: int, k: nat)
    requires t.tabs == map[] && PreviousStop(t, x) && t.x - 8 <= k < t.x && k % 8 == 0
    ensures x == k
  {
    assert IsTab(t.tabs, k);
  }

  // A tab by a count, cut behind the first one.
  lemma {:induction false} StopsAtBorder(tabs: map<int, bool>, x: int, n: nat, width: nat)
    ensures TabRight(tabs, x, n, width) >= x && TabLeft(tabs, x, n) <= x
    decreases n
  {
    if n > 0 {
      StopsAtBorder(tabs, NextTab(tabs, x, width), n - 1, width);
      StopsAtBorder(tabs, PreviousTab(tabs, x), n - 1, width);
    }
  }

  lemma RightAdds(c: Config, t: Term, n: nat)
    requires Sound(c, t)
    ensures Ht(c, t, n + 1) == Ht(c, Ht(c, t, 1), n)
  {
    hide NextTab, PreviousTab;
    var right := NextTab(t.tabs, t.x, c.width);
    assert TabRight(t.tabs, t.x, 1, c.width) == right;
    StopsAtBorder(t.tabs, right, n, c.width);
    StopsAtBorder(t.tabs, c.width - 1, n, c.width);
  }

  lemma LeftAdds(c: Config, t: Term, n: nat)
    requires Sound(c, t)
    ensures Rt(c, t, n + 1) == Rt(c, Rt(c, t, 1), n)
  {
    hide NextTab, PreviousTab;
    var left := PreviousTab(t.tabs, t.x);
    assert TabLeft(t.tabs, t.x, 1) == left;
    StopsAtBorder(t.tabs, left, n, c.width);
    StopsAtBorder(t.tabs, 0, n, c.width);
  }

  // One tab after the other.
  function TabsRight(c: Config, t: Term, n: nat): (r: Term)
    requires Sound(c, t)
    decreases n
  {
    if n == 0 then t else TabsRight(c, AtColumn(c, t, StopRight(c, t)), n - 1)
  }

  function TabsLeft(c: Config, t: Term, n: nat): (r: Term)
    requires Sound(c, t)
    decreases n
  {
    if n == 0 then t else TabsLeft(c, AtColumn(c, t, StopLeft(t)), n - 1)
  }

  lemma {:induction false} RightTabs(c: Config, t: Term, n: nat)
    requires Sound(c, t)
    ensures Ht(c, t, n) == TabsRight(c, t, n)
    decreases n
  {
    if n > 0 {
      hide Ht, StopRight, AtColumn, Sound;
      StopsRight(c, t);
      RightTabs(c, Ht(c, t, 1), n - 1);
      RightAdds(c, t, n - 1);
    }
  }

  lemma {:induction false} LeftTabs(c: Config, t: Term, n: nat)
    requires Sound(c, t)
    ensures Rt(c, t, n) == TabsLeft(c, t, n)
    decreases n
  {
    if n > 0 {
      hide Rt, StopLeft, AtColumn, Sound;
      StopsLeft(c, t);
      LeftTabs(c, Rt(c, t, 1), n - 1);
      LeftAdds(c, t, n - 1);
    }
  }

  /** CSI I and CSI Z: a count of tabs to the right or to the left. */
  lemma SequenceTabs(c: Config, t: Term, n: nat, nested: bool)
    requires Sound(c, t) && !t.modes.printing
    ensures Process(c, t, Sequence([n], 0x49), nested) == TabsRight(c, After(t, n), Count(n))
    ensures Process(c, t, Sequence([n], 0x5A), nested) == TabsLeft(c, After(t, n), Count(n))
  {
    hide Process, Sequence, Collected, Ht, Rt, TabsRight, TabsLeft;
    SequenceActs(c, t, [n], 0x49, nested);
    SequenceActs(c, t, [n], 0x5A, nested);
    Parameters(t, [n]);
    RightTabs(c, After(t, n), Count(n));
    LeftTabs(c, After(t, n), Count(n));
  }

  // ---- Scrolling and repeating by count ----

  function Downs(c: Config, t: Term, n: nat): (r: Term)
    requires Sound(c, t)
    decreases n
  {
    if n == 0 then t else Downs(c, Down(c, t), n - 1)
  }

  function Ups(c: Config, t: Term, n: nat): (r: Term)
    requires Sound(c, t)
    decreases n
  {
    if n == 0 then t else Ups(c, Up(c, t), n - 1)
  }

  lemma {:induction false} FeedsMove(c: Config, t: Term, n: nat)
    requires Sound(c, t)
    ensures Lf(c, t, n) == Downs(c, t, n)
    decreases n
  {
    if n > 0 {
      hide LineFeed, ReverseFeed, Down, Up, Sound;
      FeedMoves(c, t);
      FeedsMove(c, Down(c, t), n - 1);
    }
  }

  lemma {:induction false} ReverseFeedsMove(c: Config, t: Term, n: nat)
    requires Sound(c, t)
    ensures RiTimes(c, t, n) == Ups(c, t, n)
    decreases n
  {
    if n > 0 {
      hide LineFeed, ReverseFeed, Down, Up, Sound;
      FeedMoves(c, t);
      ReverseFeedsMove(c, Up(c, t), n - 1);
    }
  }

  /** CSI S and CSI T: as many line feeds, or reverse ones, at most as many as there are
      rows. */
  lemma SequenceFeeds(c: Config, t: Term, n: nat, nested: bool)
    requires Sound(c, t) && !t.modes.printing
    ensures Process(c, t, Sequence([n], 0x53), nested) == Downs(c, After(t, n), Capped(n, c.height))
    ensures Process(c, t, Sequence([n], 0x54), nested) == Ups(c, After(t, n), Capped(n, c.height)).(needWrap := false)
  {
    hide Process, Sequence, Collected, Lf, RiTimes, Downs, Ups;
    SequenceActs(c, t, [n], 0x53, nested);
    SequenceActs(c, t, [n], 0x54, nested);
    Parameters(t, [n]);
    FeedsMove(c, After(t, n), Capped(n, c.height));
    ReverseFeedsMove(c, After(t, n), Capped(n, c.height));
  }

  // The number of positions of the screen.
  function Area(c: Config): (n: nat)
    requires c.Valid()
    ensures n > 0 && n == c.width * c.height
  {
    c.width * c.height
  }

  lemma RepeatedFills(c: Config, t: Term)
    requires Sound(c, t)
    ensures Repeated(c, t) == Fill(Capped(Par(t.parser, 0), Area(c)), t.last)
  {
  }

  // A repetition, which is the only sequence of this kind that hands text back.
  lemma ReadRepetition(c: Config, t: Term)
    requires Sound(c, t) && !t.modes.printing && t.parser.esc == GetPars && !t.parser.question
    ensures var text := Fill(Capped(Par(t.parser, 0), Area(c)), t.last);
      Step(c, t, 0x62, false) == Process(c, WithEsc(Heard(t), Normal), text, true)
  {
    hide Process, CsiGoto, CsiTravel, CsiEdit, CsiOther, AfterCsi, AfterEscape, SingleShift, InShortEscape, ControlMove,
         ControlState, Draw, Area, Capped, Repeated, Fill;
    RepeatedFills(c, WithEsc(Heard(t), Normal));
    var text := Fill(Capped(Par(t.parser, 0), Area(c)), t.last);
    assert Control(c, Heard(t), 0x62) == (WithEsc(Heard(t), Normal), text);
    RepetitionHeard(c, t, text);
  }

  lemma RepetitionHeard(c: Config, t: Term, text: seq<CodeUnit>)
    requires Sound(c, t) && t.parser.esc != Normal && Control(c, Heard(t), 0x62) == (WithEsc(Heard(t), Normal), text)
    requires text != []
    ensures Step(c, t, 0x62, false) == Process(c, WithEsc(Heard(t), Normal), text, true)
  {
    hide Control, Process, Draw;
  }

  /** CSI b: the last character again, a count of times, but at most once for each
      position of the screen. */
  lemma SequenceRepeats(c: Config, t: Term, n: nat)
    requires Sound(c, t) && !t.modes.printing
    ensures Process(c, t, Sequence([n], 0x62), false) == Process(c, After(t, n), Fill(Capped(n, Area(c)), t.last), true)
  {
    hide Process, Replies, Step, Numbers, Collected, Capped, Fill, Area;
    ReadNumbers(c, t, [n], false);
    ProcessConcat(c, t, [0x1B, 0x5B] + Numbers([n]), [0x62], false);
    ProcessOne(c, Reading(t, [n]), 0x62, false);
    ReadRepetition(c, Reading(t, [n]));
    Parameters(t, [n]);
  }

  // ---- Switches ----

  lemma ReadEncoding(c: Config, t: Term, ch: CodeUnit, nested: bool)
    requires Sound(c, t) && !t.modes.printing && t.parser.esc == Percent && 0x20 <= ch <= 0x7E
    ensures Step(c, t, ch, nested)
      == WithEsc(Heard(t), Normal).(modes := t.modes.(utf := ch == 0x47 || ch == 0x38 || (ch != 0x40 && t.modes.utf)))
  {
    hide Step, AfterCsi, CsiParameter, SingleShift, AfterEscape, ControlMove, ControlState;
    HearControl(c, t, ch, nested);
  }

  /** ESC % G and ESC % 8 turn the decoding of UTF-8 on, and ESC % @ turns it off. */
  lemma EncodingSwitched(c: Config, t: Term, ch: CodeUnit, nested: bool)
    requires Sound(c, t) && !t.modes.printing && 0x20 <= ch <= 0x7E
    ensures Process(c, t, [0x1B, 0x25, ch], nested)
      == WithEsc(Heard(t), Normal).(modes := t.modes.(utf := ch == 0x47 || ch == 0x38 || (ch != 0x40 && t.modes.utf)))
  {
    hide Step, Process;
    EscapeTwo(c, t, 0x25, ch, nested);
    ReadEncoding(c, WithEsc(Heard(t), Percent), ch, nested);
  }

  lemma ShiftShows(c: Config, t: Term, n: nat, ch: CodeUnit)
    requires Sound(c, t) && !t.modes.printing && !t.modes.toggleMeta && n <= 1 && t.parser.esc == Shift(n) && 32 <= ch <= 126
    ensures var glyph := ToGlyph(c.Lookup(t.sets.g[n + 2], ch)); var t1 := WithEsc(t, Normal);
      Control(c, t, ch) == if glyph.Nothing? then (t1, []) else (t1.(last := glyph.ch), [glyph.ch])
  {
    hide ToGlyph, AfterEscape, AfterCsi, CsiParameter, InShortEscape, ControlMove, ControlState;
  }

  lemma ReadShifted(c: Config, t: Term, n: nat, ch: CodeUnit)
    requires Sound(c, t) && !t.modes.printing && !t.modes.toggleMeta && n <= 1 && t.parser.esc == Shift(n) && 32 <= ch <= 126
    ensures var glyph := ToGlyph(c.Lookup(t.sets.g[n + 2], ch)); var t1 := WithEsc(Heard(t), Normal);
      Step(c, t, ch, false) == if glyph.Nothing? then t1 else Process(c, t1.(last := glyph.ch), [glyph.ch], true)
  {
    hide Process, Draw, ToGlyph, Control;
    ShiftShows(c, Heard(t), n, ch);
  }

  /** ESC N and ESC O: one character shows through G2 or G3, as text of its own. */
  lemma SingleShifted(c: Config, t: Term, n: nat, ch: CodeUnit)
    requires Sound(c, t) && !t.modes.printing && !t.modes.toggleMeta && n <= 1 && 32 <= ch <= 126
    ensures var glyph := ToGlyph(c.Lookup(t.sets.g[n + 2], ch)); var t1 := WithEsc(Heard(t), Normal);
      Process(c, t, [0x1B, 0x4E + n, ch], false)
      == if glyph.Nothing? then t1 else Process(c, t1.(last := glyph.ch), [glyph.ch], true)
  {
    hide Step, Process, ToGlyph;
    EscapeTwo(c, t, 0x4E + n, ch, false);
    ReadShifted(c, WithEsc(Heard(t), Shift(n)), n, ch);
  }

  // ---- What is drawn at all ----

  // The characters of the tables that are text: control characters are commands, fewer
  // of them while controls are shown.
  predicate IsText(ch: CodeUnit, dispCtrl: bool) {
    if ch < 32 then
      if dispCtrl then ch !in {0x00, 0x08, 0x0A, 0x0C, 0x0D, 0x0E, 0x0F, 0x1B}
      else ch != 0x00 && ch != 0x07 && !(0x08 <= ch <= 0x0F) && ch !in {0x18, 0x1A, 0x1B}
    else ch <= 126 || (ch == 127 && dispCtrl) || 160 <= ch < 256
  }

  /** These are drawn, through the set in use. */
  lemma TextDrawn(c: Config, t: Term, ch: CodeUnit, nested: bool)
    requires Sound(c, t) && !t.modes.printing && !t.modes.utf && !t.modes.toggleMeta && t.parser.esc == Normal
    requires IsText(ch, t.modes.dispCtrl)
    ensures var glyph := ToGlyph(c.Lookup(t.sets.translate, ch));
      Process(c, t, [ch], nested) == if glyph.Nothing? then t else Draw(c, t, glyph.ch)
  {
    hide Draw, ToGlyph, Control, Process;
    ProcessOne(c, t, ch, nested);
  }
}
