/** Where the characters and sequences that move the cursor put it. */
module MotionFacts {
  import opened Cells
  import opened Grid
  import opened TermSpec
  import opened ScreenFacts
  import opened SequenceFacts

  // The number between `low` and `high` that is nearest to `v`.
  function Clamp(v: int, low: int, high: int): (r: int)
    requires low <= high
    ensures low <= r <= high
  {
    if v < low then low else if v > high then high else v
  }

  // The rows that the cursor can be sent to: in origin mode only those of the region.
  function FirstRow(t: Term): int {
    if t.modes.offset then t.top else 0
  }

  function LastRow(c: Config, t: Term): int {
    if t.modes.offset then t.bottom - 1 else c.height - 1
  }

  // The cursor sent to a column and a row, or as near as it can get; no wrap is due.
  function Sent(c: Config, t: Term, x: int, y: int): (r: Term)
    requires Framed(c, t)
    ensures Sound(c, r)
  {
    t.(x := Clamp(x, 0, c.width - 1), y := Clamp(y, FirstRow(t), LastRow(c, t)), needWrap := false)
  }

  lemma GotoSends(c: Config, t: Term, x: int, y: int)
    requires Framed(c, t)
    ensures Goto(c, t, x, y) == Sent(c, t, x, y)
    ensures GotoRelative(c, t, x, y) == Sent(c, t, x, FirstRow(t) + y)
  {
  }

  // ---- Control characters ----

  // A control character that acts at once.  Vertical and horizontal tabs can be shown
  // instead, and so can those above 0x7F that do not cancel a sequence.
  predicate Commands(t: Term, ch: CodeUnit) {
    || ch == 0x08 || ch == 0x0A || ch == 0x0C || ch == 0x0D
    || ((ch == 0x09 || ch == 0x0B) && !t.modes.dispCtrl)
    || (ch == 0x8D && !t.modes.utf)
    || ((ch == 0x84 || ch == 0x85) && !t.modes.utf && t.parser.esc != Normal)
  }

  lemma ControlActs(c: Config, t: Term, ch: CodeUnit, nested: bool)
    requires Sound(c, t) && !t.modes.printing && Commands(t, ch)
    ensures Process(c, t, [ch], nested) == ControlMove(c, Heard(t), ch)
  {
    hide ControlMove, ControlState, InEscape, Draw, Process, ToGlyph;
    assert {8, 10, 12, 13} <= CTRL_ALWAYS && {8, 9, 10, 11, 12, 13} <= CTRL_ACTION;
    ProcessOne(c, t, ch, nested);
  }

  // One row down: at the bottom of the region its rows move up.
  function Down(c: Config, t: Term): (r: Term)
    requires Sound(c, t)
    ensures Sound(c, r)
  {
    if t.y == t.bottom - 1 then
      t.(page := Grid(Kept(t.page, t.alternate, c.height, t.top, t.bottom, 1),
                      RowsDeleted(t.page.rows, t.top, t.bottom, 1, BlankRow(c.width))))
    else if t.y == c.height - 1 then t
    else Sent(c, t, t.x, t.y + 1)
  }

  // One row up: at the top of the region its rows move down.
  function Up(c: Config, t: Term): (r: Term)
    requires Sound(c, t)
    ensures Sound(c, r)
  {
    if t.y == t.top then
      t.(page := t.page.(rows := RowsInserted(t.page.rows, t.top, t.bottom, 1, BlankRow(c.width))))
    else if t.y == 0 then t
    else Sent(c, t, t.x, t.y - 1)
  }

  lemma FeedMoves(c: Config, t: Term)
    requires Sound(c, t)
    ensures LineFeed(c, t) == Down(c, t) && ReverseFeed(c, t) == Up(c, t)
  {
    hide Kept, RowsDeleted, RowsInserted, Scroll;
    FeedsScroll(c, t);
  }

  lemma FeedOnce(c: Config, t: Term)
    requires Sound(c, t)
    ensures Lf(c, t, 1) == Down(c, t) && Ri(c, t, 1) == Up(c, t).(needWrap := false)
  {
    hide LineFeed, ReverseFeed, Down, Up, Sound;
    FeedMoves(c, t);
    assert Lf(c, LineFeed(c, t), 0) == LineFeed(c, t);
    assert RiTimes(c, ReverseFeed(c, t), 0) == ReverseFeed(c, t);
  }

  // The row below, and the one above, in the terms of the screen.
  lemma DownMeans(c: Config, t: Term)
    requires Sound(c, t)
    ensures var r := Down(c, t);
      && r.x == t.x && r == t.(page := r.page, y := r.y, needWrap := r.needWrap)
      && (t.y != t.bottom - 1 ==> r.page == t.page && (r.y == t.y || !r.needWrap))
      && (r.y == t.y + 1 <==> t.y != t.bottom - 1 && t.y < c.height - 1 && (t.modes.offset ==> t.top <= t.y + 1 < t.bottom))
  {
    hide Kept, RowsDeleted;
  }

  lemma UpMeans(c: Config, t: Term)
    requires Sound(c, t)
    ensures var r := Up(c, t);
      && r.x == t.x && r == t.(page := r.page, y := r.y, needWrap := r.needWrap)
      && (t.y != t.top ==> r.page == t.page)
      && (r.y == t.y - 1 <==> t.y != t.top && t.y > 0 && (t.modes.offset ==> t.top <= t.y - 1 < t.bottom))
  {
    hide RowsInserted;
  }

  /** A line feed: above the bottom row of its region, the cursor goes one row down and
      nothing else changes; at that row the region scrolls. */
  lemma LineFeedMoves(c: Config, t: Term, ch: CodeUnit, nested: bool)
    requires Sound(c, t) && !t.modes.printing && Commands(t, ch) && ch in {0x0A, 0x0B, 0x0C, 0x84}
    ensures var r, d := Process(c, t, [ch], nested), Down(c, Heard(t));
      && r == (if t.modes.crLf then Sent(c, d, 0, d.y) else d)
      && (t.y != t.bottom - 1 && t.y < c.height - 1 ==>
            && r.page == t.page && (!t.modes.crLf ==> r.x == t.x)
            && (r.y == t.y + 1 <==> (t.modes.offset ==> t.top <= t.y + 1 < t.bottom)))
  {
    hide Process, Lf, Down;
    ControlActs(c, t, ch, nested);
    FeedOnce(c, Heard(t));
    DownMeans(c, Heard(t));
    var d := Down(c, Heard(t));
    GotoSends(c, d, 0, d.y);
  }

  /** A carriage return goes to the first column, and a backspace one column back; no
      text changes. */
  lemma ReturnMoves(c: Config, t: Term, nested: bool)
    requires Sound(c, t) && !t.modes.printing
    ensures Process(c, t, [0x0D], nested) == Sent(c, Heard(t), 0, t.y)
    ensures Process(c, t, [0x08], nested) == if t.x > 0 then Sent(c, Heard(t), t.x - 1, t.y) else Heard(t)
  {
    hide Process, Lf;
    ControlActs(c, t, 0x0D, nested);
    ControlActs(c, t, 0x08, nested);
    GotoSends(c, Heard(t), 0, t.y);
    GotoSends(c, Heard(t), t.x - 1, t.y);
  }

  /** A reverse line feed goes one row up, or opens a row at the top of the region; a
      next-line character goes to the first column of the row below. */
  lemma HighControlsMove(c: Config, t: Term, nested: bool)
    requires Sound(c, t) && !t.modes.printing && !t.modes.utf
    ensures var r := Process(c, t, [0x8D], nested);
      && r == Up(c, t).(needWrap := false)
      && (t.y != t.top && t.y > 0 ==>
            r.page == t.page && r.x == t.x && (r.y == t.y - 1 <==> (t.modes.offset ==> t.top <= t.y - 1 < t.bottom)))
    ensures t.parser.esc != Normal ==> Process(c, t, [0x85], nested) == Down(c, Sent(c, t, 0, t.y))
  {
    hide Process, Lf, Ri, Down, Up;
    ControlActs(c, t, 0x8D, nested);
    FeedOnce(c, t);
    UpMeans(c, t);
    if t.parser.esc != Normal {
      ControlActs(c, t, 0x85, nested);
      GotoSends(c, t, 0, t.y);
      FeedOnce(c, Sent(c, t, 0, t.y));
    }
  }

  // ---- Escape sequences ----

  lemma ProcessTwo(c: Config, t: Term, a: CodeUnit, b: CodeUnit, nested: bool)
    requires Sound(c, t)
    ensures Process(c, t, [a, b], nested) == Step(c, Step(c, t, a, nested), b, nested)
  {
    hide Step, Sound;
    ProcessOne(c, t, a, nested);
    assert [a, b][..1] == [a];
  }

  /** ESC and one character, read in any state. */
  lemma EscapeActs(c: Config, t: Term, ch: CodeUnit, nested: bool)
    requires Sound(c, t) && !t.modes.printing && 0x20 <= ch <= 0x7E
    ensures Process(c, t, [0x1B, ch], nested) == AfterEscape(c, WithEsc(Heard(t), Escape), ch)
  {
    hide Process, Step, AfterEscape, AfterCsi, CsiParameter, SingleShift, InShortEscape, ControlMove, ControlState;
    ReadEscape(c, t, nested);
    HearControl(c, WithEsc(Heard(t), Escape), ch, nested);
    ProcessTwo(c, t, 0x1B, ch, nested);
  }

  lemma AfterIs(c: Config, t: Term)
    requires Sound(c, t)
    ensures var t1 := WithEsc(t, Normal);
      && AfterEscape(c, t, 0x44) == Lf(c, t1, 1)
      && AfterEscape(c, t, 0x45) == Lf(c, Cr(c, t1), 1)
      && AfterEscape(c, t, 0x4D) == Ri(c, t1, 1)
  {
    hide Lf, Ri, Cr, Reset, RestoreCursor;
  }

  lemma AfterFeeds(c: Config, t: Term)
    requires Sound(c, t)
    ensures var t1 := WithEsc(t, Normal);
      && AfterEscape(c, t, 0x44) == Down(c, t1)
      && AfterEscape(c, t, 0x45) == Down(c, Sent(c, t1, 0, t.y))
      && AfterEscape(c, t, 0x4D) == Up(c, t1).(needWrap := false)
  {
    hide Lf, Ri, Down, Up, AfterEscape, Sent, Goto;
    var t1 := WithEsc(t, Normal);
    AfterIs(c, t);
    FeedOnce(c, t1);
    GotoSends(c, t1, 0, t.y);
    FeedOnce(c, Sent(c, t1, 0, t.y));
  }

  /** ESC D, ESC E and ESC M: one row down, to the start of the next row, one row up. */
  lemma EscapeMoves(c: Config, t: Term, nested: bool)
    requires Sound(c, t) && !t.modes.printing
    ensures var t1 := WithEsc(Heard(t), Normal);
      && Process(c, t, [0x1B, 0x44], nested) == Down(c, t1)
      && Process(c, t, [0x1B, 0x45], nested) == Down(c, Sent(c, t1, 0, t.y))
      && Process(c, t, [0x1B, 0x4D], nested) == Up(c, t1).(needWrap := false)
  {
    hide Process, Down, Up, Sent, AfterEscape;
    EscapeActs(c, t, 0x44, nested);
    EscapeActs(c, t, 0x45, nested);
    EscapeActs(c, t, 0x4D, nested);
    AfterFeeds(c, WithEsc(Heard(t), Escape));
  }

  /** In the terms of the screen: away from the edges of the region the page stays, and the
      cursor goes one row down or up, exactly if origin mode allows it. */
  lemma EscapeSteps(c: Config, t: Term, nested: bool)
    requires Sound(c, t) && !t.modes.printing
    ensures t.y != t.bottom - 1 && t.y < c.height - 1 ==>
      var r := Process(c, t, [0x1B, 0x44], nested);
      r.page == t.page && r.x == t.x && (r.y == t.y + 1 <==> (t.modes.offset ==> t.top <= t.y + 1 < t.bottom))
    ensures t.y != t.top && t.y > 0 ==>
      var r := Process(c, t, [0x1B, 0x4D], nested);
      r.page == t.page && r.x == t.x && (r.y == t.y - 1 <==> (t.modes.offset ==> t.top <= t.y - 1 < t.bottom))
  {
    hide Process, Down, Up, Sent;
    EscapeMoves(c, t, nested);
    DownMeans(c, WithEsc(Heard(t), Normal));
    UpMeans(c, WithEsc(Heard(t), Normal));
  }

  // ---- Control sequences ----

  // Sent on after a control sequence with the given parameters.
  function SentBy(c: Config, t: Term, pars: seq<nat>, x: int, y: int): Term
    requires Sound(c, t) && |pars| > 0
  {
    Sent(c, WithEsc(Reading(t, pars), Normal), x, y)
  }

  lemma SequenceGoes(c: Config, t: Term, pars: seq<nat>, ch: CodeUnit, nested: bool)
    requires Sound(c, t) && !t.modes.printing && |pars| > 0 && PlacesCursor(ch)
    ensures Process(c, t, Sequence(pars, ch), nested) == CsiGoto(c, WithEsc(Reading(t, pars), Normal), ch)
  {
    hide Process, Sequence, CsiGoto, Collected;
    SequenceActs(c, t, pars, ch, nested);
  }

  lemma Parameters(t: Term, pars: seq<nat>)
    requires |pars| > 0
    ensures var p := WithEsc(Reading(t, pars), Normal).parser;
      Par(p, 0) == pars[0] && (|pars| > 1 ==> Par(p, 1) == pars[1])
  {
    hide Collected;
  }

  // A count of rows or columns to go.
  function Count(n: nat): nat {
    if n == 0 then 1 else n
  }

  /** CSI A and CSI B: up or down by a count of rows, in the same column, as far as the
      rows go. */
  lemma SequenceMovesRows(c: Config, t: Term, n: nat, nested: bool)
    requires Sound(c, t) && !t.modes.printing
    ensures Process(c, t, Sequence([n], 0x41), nested) == SentBy(c, t, [n], t.x, t.y - Count(n))
    ensures Process(c, t, Sequence([n], 0x42), nested) == SentBy(c, t, [n], t.x, t.y + Count(n))
    ensures Process(c, t, Sequence([n], 0x65), nested) == SentBy(c, t, [n], t.x, t.y + Count(n))
  {
    hide Process, Sequence, Collected, Goto, Sent;
    Parameters(t, [n]);
    SequenceGoes(c, t, [n], 0x41, nested);
    SequenceGoes(c, t, [n], 0x42, nested);
    SequenceGoes(c, t, [n], 0x65, nested);
    GotoSends(c, WithEsc(Reading(t, [n]), Normal), t.x, t.y - Count(n));
    GotoSends(c, WithEsc(Reading(t, [n]), Normal), t.x, t.y + Count(n));
  }

  /** CSI C and CSI D: forward or back by a count of columns, in the same row. */
  lemma SequenceMovesColumns(c: Config, t: Term, n: nat, nested: bool)
    requires Sound(c, t) && !t.modes.printing
    ensures Process(c, t, Sequence([n], 0x43), nested) == SentBy(c, t, [n], t.x + Count(n), t.y)
    ensures Process(c, t, Sequence([n], 0x61), nested) == SentBy(c, t, [n], t.x + Count(n), t.y)
    ensures Process(c, t, Sequence([n], 0x44), nested) == SentBy(c, t, [n], t.x - Count(n), t.y)
  {
    hide Process, Sequence, Collected, Goto, Sent;
    Parameters(t, [n]);
    SequenceGoes(c, t, [n], 0x43, nested);
    SequenceGoes(c, t, [n], 0x61, nested);
    SequenceGoes(c, t, [n], 0x44, nested);
    GotoSends(c, WithEsc(Reading(t, [n]), Normal), t.x + Count(n), t.y);
    GotoSends(c, WithEsc(Reading(t, [n]), Normal), t.x - Count(n), t.y);
  }

  /** CSI E and CSI F: to the start of a row further down or up. */
  lemma SequenceMovesLines(c: Config, t: Term, n: nat, nested: bool)
    requires Sound(c, t) && !t.modes.printing
    ensures Process(c, t, Sequence([n], 0x45), nested) == SentBy(c, t, [n], 0, t.y + Count(n))
    ensures Process(c, t, Sequence([n], 0x46), nested) == SentBy(c, t, [n], 0, t.y - Count(n))
  {
    hide Process, Sequence, Collected, Goto, Sent;
    Parameters(t, [n]);
    SequenceGoes(c, t, [n], 0x45, nested);
    SequenceGoes(c, t, [n], 0x46, nested);
    GotoSends(c, WithEsc(Reading(t, [n]), Normal), 0, t.y + Count(n));
    GotoSends(c, WithEsc(Reading(t, [n]), Normal), 0, t.y - Count(n));
  }

  /** CSI G and CSI d: to a column, or to a row, counted from one, the row from the top
      of the region in origin mode. */
  lemma SequenceSets(c: Config, t: Term, n: nat, nested: bool)
    requires Sound(c, t) && !t.modes.printing
    ensures Process(c, t, Sequence([n], 0x47), nested) == SentBy(c, t, [n], n - 1, t.y)
    ensures Process(c, t, Sequence([n], 0x60), nested) == SentBy(c, t, [n], n - 1, t.y)
    ensures Process(c, t, Sequence([n], 0x64), nested) == SentBy(c, t, [n], t.x, FirstRow(t) + n - 1)
  {
    hide Process, Sequence, Collected, Goto, GotoRelative, Sent;
    Parameters(t, [n]);
    SequenceGoes(c, t, [n], 0x47, nested);
    SequenceGoes(c, t, [n], 0x60, nested);
    SequenceGoes(c, t, [n], 0x64, nested);
    GotoSends(c, WithEsc(Reading(t, [n]), Normal), n - 1, t.y);
    GotoSends(c, WithEsc(Reading(t, [n]), Normal), t.x, n - 1);
  }

  /** CSI H: to a row and a column. */
  lemma SequenceAddresses(c: Config, t: Term, row: nat, column: nat, nested: bool)
    requires Sound(c, t) && !t.modes.printing
    ensures var r := SentBy(c, t, [row, column], column - 1, FirstRow(t) + row - 1);
      && Process(c, t, Sequence([row, column], 0x48), nested) == r
      && Process(c, t, Sequence([row, column], 0x66), nested) == r
  {
    hide Process, Sequence, Collected, GotoRelative, Sent;
    Parameters(t, [row, column]);
    SequenceGoes(c, t, [row, column], 0x48, nested);
    SequenceGoes(c, t, [row, column], 0x66, nested);
    GotoSends(c, WithEsc(Reading(t, [row, column]), Normal), column - 1, row - 1);
  }
}
