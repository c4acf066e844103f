/** The commands that switch modes, set the region and the tab stops, save the cursor,
    reset the terminal or ask it something, character by character as they are sent. */
module CommandFacts {
  import opened Rows
  import opened Cells
  import opened Grid
  import opened TermSpec
  import opened TermFacts
  import opened ScreenFacts
  import opened TypingFacts
  import opened SequenceFacts
  import opened MotionFacts
  import opened EditFacts
  import opened ColourFacts

  // ---- Modes ----

  lemma SequenceCommands(c: Config, t: Term, pars: seq<nat>, ch: CodeUnit, nested: bool)
    requires Sound(c, t) && !t.modes.printing && |pars| > 0
    requires ch in {0x67, 0x68, 0x69, 0x6C, 0x72}
    ensures Process(c, t, Sequence(pars, ch), nested) == CsiOther(c, WithEsc(Reading(t, pars), Normal), ch)
  {
    hide Process, Sequence, CsiOther, Collected;
    SequenceActs(c, t, pars, ch, nested);
  }

  // The modes after one parameter, and after all of them.
  function Switched(m: Modes, n: nat, state: bool): Modes {
    if n == 3 then m.(dispCtrl := state) else if n == 4 then m.(insert := state)
    else if n == 20 then m.(crLf := state) else m
  }

  function AllSwitched(m: Modes, pars: seq<nat>, state: bool): Modes
    decreases |pars|
  {
    if pars == [] then m else AllSwitched(Switched(m, pars[0], state), pars[1..], state)
  }

  lemma {:induction false} ModesApply(c: Config, t: Term, i: nat, pars: seq<nat>, state: bool)
    requires Sound(c, t) && |pars| > 0 && i <= |pars|
    requires t.parser.npar == |pars| - 1 && t.parser.par == Collected(pars) && !t.parser.question
    ensures SetModes(c, t, i, state) == t.(modes := AllSwitched(t.modes, pars[i..], state))
    decreases |pars| - i
  {
    hide Collected;
    if i < |pars| {
      assert Given(t.parser, i) && Par(t.parser, i) == pars[i];
      assert SetMode(c, t, pars[i], state) == t.(modes := Switched(t.modes, pars[i], state));
      ModesApply(c, t.(modes := Switched(t.modes, pars[i], state)), i + 1, pars, state);
      assert pars[i..][1..] == pars[i + 1..];
    }
  }

  /** CSI h and CSI l, with any number of modes: controls shown, insertion, line feeds
      that return; other modes change nothing. */
  lemma ModesSwitched(c: Config, t: Term, pars: seq<nat>, state: bool, nested: bool)
    requires Sound(c, t) && !t.modes.printing && |pars| > 0
    ensures Process(c, t, Sequence(pars, if state then 0x68 else 0x6C), nested)
      == WithEsc(Reading(t, pars), Normal).(modes := AllSwitched(t.modes, pars, state))
  {
    hide Process, Sequence, Collected, SetModes, AllSwitched;
    SequenceCommands(c, t, pars, if state then 0x68 else 0x6C, nested);
    assert pars[0..] == pars;
    ModesApply(c, WithEsc(Reading(t, pars), Normal), 0, pars, state);
  }

  // The same with a question mark.
  function Private(n: nat, ch: CodeUnit): seq<CodeUnit> {
    [0x1B, 0x5B] + [0x3F] + Decimal(n) + [ch]
  }

  lemma ReadQuestion(c: Config, t: Term, nested: bool)
    requires Sound(c, t) && !t.modes.printing && t.parser.esc == Square
    ensures Process(c, t, [0x3F], nested) == Heard(t).(parser := Parser(GetPars, 0, map[], true))
  {
    hide Step, CsiParameter, AfterEscape, SingleShift, InShortEscape, ControlMove, ControlState;
    HearControl(c, t, 0x3F, nested);
    ProcessOne(c, t, 0x3F, nested);
  }

  lemma ReadPrivateEnd(c: Config, t: Term, ch: CodeUnit, nested: bool)
    requires Sound(c, t) && !t.modes.printing && t.parser.esc == GetPars && t.parser.question && (ch == 0x68 || ch == 0x6C)
    ensures Process(c, t, [ch], nested) == CsiPrivate(c, WithEsc(Heard(t), Normal), ch)
  {
    hide Step, CsiPrivate, CsiGoto, CsiTravel, CsiEdit, CsiOther, AfterCsi, AfterEscape, SingleShift, InShortEscape,
         ControlMove, ControlState;
    HearControl(c, t, ch, nested);
    ProcessOne(c, t, ch, nested);
  }

  // The state after a private sequence that does nothing else.
  function AfterPrivate(t: Term, n: nat): Term {
    Heard(t).(parser := Parser(Normal, 0, map[0 := n], false))
  }

  lemma OnePrivateMode(c: Config, t: Term, n: nat, state: bool)
    requires Sound(c, t) && t.parser == Parser(Normal, 0, map[0 := n], true)
    ensures CsiPrivate(c, t, if state then 0x68 else 0x6C)
            == SetMode(c, t, n, state).(parser := t.parser.(question := false))
  {
    hide SetMode;
    assert Par(t.parser, 0) == n;
    assert SetModes(c, t, 0, state) == SetModes(c, SetMode(c, t, n, state), 1, state);
  }

  lemma PrivateRead(c: Config, t: Term, n: nat, nested: bool)
    requires Sound(c, t) && !t.modes.printing
    ensures Process(c, t, [0x1B, 0x5B] + [0x3F] + Decimal(n), nested)
            == Heard(t).(parser := Parser(GetPars, 0, map[0 := n], true))
  {
    hide Process, Replies, Decimal;
    ReadCsi(c, t, nested);
    ProcessConcat(c, t, [0x1B, 0x5B], [0x3F], nested);
    ReadQuestion(c, WithEsc(Heard(t), Square), nested);
    ProcessConcat(c, t, [0x1B, 0x5B] + [0x3F], Decimal(n), nested);
    ReadNumber(c, Heard(t).(parser := Parser(GetPars, 0, map[], true)), n, nested);
    assert map[][0 := n] == map[0 := n];
  }

  lemma PrivateActs(c: Config, t: Term, n: nat, state: bool, nested: bool)
    requires Sound(c, t) && !t.modes.printing
    ensures var t1 := Heard(t).(parser := Parser(Normal, 0, map[0 := n], true));
      Process(c, t, Private(n, if state then 0x68 else 0x6C), nested)
      == SetMode(c, t1, n, state).(parser := AfterPrivate(t, n).parser)
  {
    hide Process, Replies, Decimal, SetMode, CsiPrivate;
    var ch := if state then 0x68 else 0x6C;
    PrivateRead(c, t, n, nested);
    ProcessConcat(c, t, [0x1B, 0x5B] + [0x3F] + Decimal(n), [ch], nested);
    ReadPrivateEnd(c, Heard(t).(parser := Parser(GetPars, 0, map[0 := n], true)), ch, nested);
    OnePrivateMode(c, Heard(t).(parser := Parser(Normal, 0, map[0 := n], true)), n, state);
  }

  /** CSI ? 6 and CSI ? 7: origin mode and wrapping. */
  lemma PrivateModeSwitched(c: Config, t: Term, n: nat, state: bool, nested: bool)
    requires Sound(c, t) && !t.modes.printing && n != 47 && n != 1047 && n != 1049
    ensures Process(c, t, Private(n, if state then 0x68 else 0x6C), nested)
      == AfterPrivate(t, n).(modes :=
           if n == 6 then t.modes.(offset := state) else if n == 7 then t.modes.(autoWrap := state) else t.modes)
  {
    hide Process, Private;
    PrivateActs(c, t, n, state, nested);
  }

  // What is kept when the cursor is saved.
  function SavedSets(t: Term): Charsets {
    t.savedSets.(use := t.sets.use, g := t.sets.g)
  }

  // The blank alternate screen, with the normal page and its cursor put aside.
  function Entered(c: Config, t: Term): (r: Term)
    requires Sound(c, t)
  {
    Sent(c, t.(page := t.other.(rows := Fill(c.height, BlankRow(c.width))), other := t.page, alternate := true,
               saved := Saved(true, t.x, t.y, t.pen.attr), savedSets := SavedSets(t)), 0, 0)
  }

  lemma EntersAlternate(c: Config, t: Term)
    requires Sound(c, t) && t.other.Fits(c.width, c.height)
    ensures EnableAlternate(c, t, true) == if t.alternate then t else Entered(c, t)
  {
    hide Clear;
    RowCleared(t.other, c.width, c.height, 0, c.height, BLANK_CELL);
    GotoSends(c, SaveCursor(t).(page := t.other, other := t.page, alternate := true), 0, 0);
  }

  // The saved cursor brought back.
  function Recalled(c: Config, t: Term, s: Saved): Term
    requires Framed(c, t)
  {
    var sets := t.savedSets;
    Sent(c, t.(pen := PenFor(s.attr), sets := sets.(translate := sets.g[sets.use])), s.x, s.y)
  }

  lemma RestoreRecalls(c: Config, t: Term)
    requires Sound(c, t)
    ensures var s := if t.alternate then t.savedAlternate else t.saved;
      RestoreCursor(c, t) == if s.valid then Recalled(c, t, s) else t
  {
    hide PenFor;
  }

  // The normal screen again, with its cursor.
  function Left(c: Config, t: Term): Term
    requires Sound(c, t)
  {
    Recalled(c, t.(page := t.other, other := t.page, alternate := false), t.saved)
  }

  lemma LeavesAlternate(c: Config, t: Term)
    requires Sound(c, t)
    ensures EnableAlternate(c, t, false) == if t.alternate then Left(c, t) else t
  {
    hide PenFor;
  }

  /** CSI ? 47, 1047 and 1049: to the alternate screen, which is blank then, and back to
      the normal one with its text, its history and its cursor. */
  lemma PageSwitched(c: Config, t: Term, n: nat, nested: bool)
    requires Sound(c, t) && t.other.Fits(c.width, c.height) && !t.modes.printing && n in {47, 1047, 1049}
    ensures var t1 := AfterPrivate(t, n);
      && Process(c, t, Private(n, 0x68), nested) == (if t.alternate then t1 else Entered(c, t1))
      && Process(c, t, Private(n, 0x6C), nested) == (if t.alternate then Left(c, t1) else t1)
  {
    hide Process, Private, EnableAlternate, Fill, PenFor;
    PrivateActs(c, t, n, true, nested);
    PrivateActs(c, t, n, false, nested);
    var t1 := Heard(t).(parser := Parser(Normal, 0, map[0 := n], true));
    EntersAlternate(c, t1);
    LeavesAlternate(c, t1);
  }

  // ---- The region ----

  /** CSI top ; bottom r: rows counted from one, the last one by default; a proper region
      is taken over, and the cursor goes to its first position. */
  lemma RegionSet(c: Config, t: Term, first: nat, last: nat, nested: bool)
    requires Sound(c, t) && !t.modes.printing
    ensures var t1 := WithEsc(Reading(t, [first, last]), Normal);
      var top, bottom := Count(first) - 1, if last == 0 then c.height else last;
      Process(c, t, Sequence([first, last], 0x72), nested)
      == if top + 1 < bottom <= c.height
         then t1.(top := top, bottom := bottom, x := 0, y := if t.modes.offset then top else 0, needWrap := false)
         else t1
  {
    hide Process, Sequence, Collected;
    SequenceCommands(c, t, [first, last], 0x72, nested);
    Parameters(t, [first, last]);
  }

  /** CSI 5 i: what follows goes to the printer. */
  lemma PrinterStarts(c: Config, t: Term, nested: bool)
    requires Sound(c, t) && !t.modes.printing
    ensures Process(c, t, Sequence([5], 0x69), nested) == After(t, 5).(modes := t.modes.(printing := true))
  {
    hide Process, Sequence, Collected;
    SequenceCommands(c, t, [5], 0x69, nested);
    Parameters(t, [5]);
  }

  // ---- Saving, tab stops and starting over ----

  // The cursor, its attributes and the character sets put aside.
  function Noted(t: Term): Term {
    var s := Saved(true, t.x, t.y, t.pen.attr);
    if t.alternate then t.(savedAlternate := s, savedSets := SavedSets(t)) else t.(saved := s, savedSets := SavedSets(t))
  }

  // The cursor as it was put aside on this page, if it was.
  function Returned(c: Config, t: Term): Term
    requires Sound(c, t)
  {
    var s := if t.alternate then t.savedAlternate else t.saved;
    if s.valid then Recalled(c, t, s) else t
  }

  /** ESC 7 saves the cursor, and ESC 8 brings it back ... */
  lemma CursorSaved(c: Config, t: Term, nested: bool)
    requires Sound(c, t) && !t.modes.printing
    ensures Process(c, t, [0x1B, 0x37], nested) == Noted(WithEsc(Heard(t), Normal))
    ensures Process(c, t, [0x1B, 0x38], nested) == Returned(c, WithEsc(Heard(t), Normal))
  {
    hide Process, Recalled, RestoreCursor, Reset;
    EscapeActs(c, t, 0x37, nested);
    EscapeActs(c, t, 0x38, nested);
    RestoreRecalls(c, WithEsc(Heard(t), Normal));
  }

  lemma TravelSaves(c: Config, t: Term)
    requires Sound(c, t)
    ensures CsiTravel(c, t, 0x73) == Noted(t) && CsiTravel(c, t, 0x75) == Returned(c, t)
  {
    hide Recalled, RestoreCursor;
    RestoreRecalls(c, t);
  }

  /** ... and so do CSI s and CSI u. */
  lemma CursorSavedBySequence(c: Config, t: Term, n: nat, nested: bool)
    requires Sound(c, t) && !t.modes.printing
    ensures Process(c, t, Sequence([n], 0x73), nested) == Noted(After(t, n))
    ensures Process(c, t, Sequence([n], 0x75), nested) == Returned(c, After(t, n))
  {
    hide Process, Sequence, Collected, CsiTravel, Returned, Noted;
    SequenceActs(c, t, [n], 0x73, nested);
    SequenceActs(c, t, [n], 0x75, nested);
    TravelSaves(c, After(t, n));
  }

  /** ESC H sets a tab stop at the cursor, and CSI 0 g clears it. */
  lemma TabSet(c: Config, t: Term, nested: bool)
    requires Sound(c, t) && !t.modes.printing
    ensures Process(c, t, [0x1B, 0x48], nested) == WithEsc(Heard(t), Normal).(tabs := t.tabs[t.x := true])
    ensures Process(c, t, Sequence([0], 0x67), nested) == After(t, 0).(tabs := t.tabs[t.x := false])
  {
    hide Process, Sequence, Collected, RestoreCursor, Reset;
    EscapeActs(c, t, 0x48, nested);
    SequenceCommands(c, t, [0], 0x67, nested);
    Parameters(t, [0]);
  }

  // Every setting as it is when the terminal starts.
  function Restarted(c: Config, t: Term): (r: Term)
    requires Sound(c, t)
    ensures Sound(c, r)
  {
    t.(modes := Modes(true, false, false, false, false, false, false, c.utfPreferred), utf := Utf(0, 0), needWrap := false,
       pen := Pen(Attr(0, 15, false, false, false, false, false), Ansi(0, 15), Plain),
       sets := Charsets(0, [Latin1, Graphics, CodePage437, DirectToFont], Latin1),
       top := 0, bottom := c.height, last := SPACE, tabs := map[])
  }

  lemma ResetRestarts(c: Config, t: Term)
    requires Sound(c, t) && (if t.alternate then t.other else t.page).Fits(c.width, c.height) && t.parser.esc == Normal
    ensures var t1 := Restarted(c, t); var t2 := if t.alternate then Left(c, t1) else t1;
      Reset(c, t) == t2.(page := t2.page.(rows := Fill(c.height, Fill(c.width, Erased(t2)))), x := 0, y := 0, needWrap := false)
  {
    hide Clear, PenFor, EnableAlternate, Fill;
    var t1 := Restarted(c, t);
    assert ResetPen(c, ResetModes(c, t)) == t1;
    LeavesAlternate(c, t1);
    var t2 := Goto(c, EnableAlternate(c, t1, false), 0, 0);
    RowCleared(t2.page, c.width, c.height, 0, c.height, TermSpec.Blank(t2));
    BlankErases(c, t2);
  }

  /** ESC c: every setting as at the start, the normal screen blank, and its history
      still there; from the alternate screen the saved attributes come back with it. */
  lemma ResetsAll(c: Config, t: Term, nested: bool)
    requires Sound(c, t) && (if t.alternate then t.other else t.page).Fits(c.width, c.height) && !t.modes.printing
    ensures var t1 := Restarted(c, WithEsc(Heard(t), Normal)); var t2 := if t.alternate then Left(c, t1) else t1;
      Process(c, t, [0x1B, 0x63], nested)
      == t2.(page := t2.page.(rows := Fill(c.height, Fill(c.width, Erased(t2)))), x := 0, y := 0, needWrap := false)
  {
    hide Process, Reset, RestoreCursor, Restarted, Left, Fill;
    EscapeActs(c, t, 0x63, nested);
    ResetRestarts(c, WithEsc(Heard(t), Normal));
  }

  // ---- Renditions ----

  lemma OneRendition(c: Config, t: Term, n: nat, nested: bool)
    requires Sound(c, t) && !t.modes.printing
    ensures var r := Rendition(After(t, n), n);
      Process(c, t, Sequence([n], 0x6D), nested) == r.(pen := PenFor(r.pen.attr))
  {
    hide Process, Sequence, Collected, Rendition, PenFor;
    SequenceActs(c, t, [n], 0x6D, nested);
    Parameters(t, [n]);
    var r := Rendition(After(t, n), n);
    RenditionKeeps(c, After(t, n), n);
    assert Renditions(c, After(t, n), 0) == Renditions(c, r, 1);
  }

  lemma RenditionKeeps(c: Config, t: Term, n: nat)
    requires Sound(c, t)
    ensures Sound(c, Rendition(t, n)) && Rendition(t, n).parser == t.parser
  {
    hide RenditionAttr;
  }

  /** CSI m with 10, 11 or 12 chooses the font that text is drawn in, the first of them
      the one in use, and whether control characters are shown. */
  lemma FontChosen(c: Config, t: Term, n: nat, nested: bool)
    requires Sound(c, t) && !t.modes.printing && 10 <= n <= 12
    ensures Process(c, t, Sequence([n], 0x6D), nested)
      == After(t, n).(sets := t.sets.(translate := if n == 10 then t.sets.g[t.sets.use] else CodePage437),
                      modes := t.modes.(dispCtrl := n > 10, toggleMeta := n == 12), pen := PenFor(t.pen.attr))
  {
    hide Process, Sequence, Collected, PenFor;
    OneRendition(c, t, n, nested);
  }

  /** The other parameters that no look needs: 21 takes brightness back, 38 and 39 the
      colour as well, the one with and the other without underlining; the rest do nothing. */
  lemma OtherRenditions(c: Config, t: Term, n: nat, nested: bool)
    requires Sound(c, t) && !t.modes.printing
    requires n !in {0, 1, 2, 4, 5, 7, 22, 24, 25, 27, 49} && !(10 <= n <= 12) && !(30 <= n <= 37) && !(40 <= n <= 47)
    ensures var a := t.pen.attr;
      Process(c, t, Sequence([n], 0x6D), nested)
      == After(t, n).(pen := PenFor(
           if n == 21 then a.(bright := false, dim := false)
           else if n == 38 || n == 39 then a.(fg := 0, bright := false, dim := false, underline := n == 38)
           else a))
  {
    hide Process, Sequence, Collected, PenFor;
    OneRendition(c, t, n, nested);
  }

  // ---- Control characters ----

  lemma ControlSwitches(c: Config, t: Term, ch: CodeUnit, nested: bool)
    requires Sound(c, t) && !t.modes.printing
    requires (ch in {0x18, 0x1A} && !t.modes.dispCtrl) || (ch in {0x88, 0x8E, 0x8F, 0x9B} && !t.modes.utf)
    ensures Process(c, t, [ch], nested) == ControlState(c, Heard(t), ch)
  {
    hide ControlState, InEscape, Draw, Process, ToGlyph;
    assert {8, 14, 15, 27} <= CTRL_ALWAYS && {8, 14, 15, 24, 26, 27} <= CTRL_ACTION;
    ProcessOne(c, t, ch, nested);
  }

  /** CAN and SUB give up any sequence; above 0x7F there is a tab stop, a single
      character of G2 or G3, and the start of a control sequence. */
  lemma SwitchesMean(c: Config, t: Term, nested: bool)
    requires Sound(c, t) && !t.modes.printing
    ensures !t.modes.dispCtrl ==> Process(c, t, [0x18], nested) == WithEsc(Heard(t), Normal)
    ensures !t.modes.dispCtrl ==> Process(c, t, [0x1A], nested) == WithEsc(Heard(t), Normal)
    ensures !t.modes.utf ==>
      && Process(c, t, [0x88], nested) == t.(tabs := t.tabs[t.x := true])
      && Process(c, t, [0x8E], nested) == WithEsc(t, Shift(0))
      && Process(c, t, [0x8F], nested) == WithEsc(t, Shift(1))
      && Process(c, t, [0x9B], nested) == WithEsc(t, Square)
  {
    hide Process;
    if !t.modes.dispCtrl {
      ControlSwitches(c, t, 0x18, nested);
      ControlSwitches(c, t, 0x1A, nested);
    }
    if !t.modes.utf {
      ControlSwitches(c, t, 0x88, nested);
      ControlSwitches(c, t, 0x8E, nested);
      ControlSwitches(c, t, 0x8F, nested);
      ControlSwitches(c, t, 0x9B, nested);
    }
  }

  // ---- Insertion ----

  lemma PutBehind(g: Grid, x: nat, y: nat, cell: Cell, blank: Cell, width: nat, height: nat)
    requires g.Fits(width, height) && x < width && y < height
    ensures var row := g.rows[y];
      var moved := if x + 1 < width then g.(rows := g.rows[y := Inserted(row, x, 1, blank)]) else g;
      moved.Put(x, y, [cell]) == g.(rows := g.rows[y := row[..x] + [cell] + row[x..width - 1]])
  {
    var row := g.rows[y];
    var moved := if x + 1 < width then g.(rows := g.rows[y := Inserted(row, x, 1, blank)]) else g;
    PutExactly(moved, x, y, [cell], width, height);
    assert Replaced(moved.rows[y], x, [cell]) == row[..x] + [cell] + row[x..width - 1];
  }

  lemma RoomMade(c: Config, t: Term)
    requires Sound(c, t) && t.page.Fits(c.width, c.height) && t.modes.insert && !t.needWrap
    ensures Prepared(c, t).page
      == if t.x + 1 < c.width
         then t.page.(rows := t.page.rows[t.y := Inserted(t.page.rows[t.y], t.x, 1, MakeCell(SPACE, t.pen.color, Plain))])
         else t.page
    ensures Prepared(c, t) == t.(page := Prepared(c, t).page)
  {
    hide Scroll, Inserted;
    var cell := MakeCell(SPACE, t.pen.color, Plain);
    if t.x + 1 < c.width {
      ScrollRight(t.page, t.alternate, c.width, c.height, t.x, t.y, 1, cell);
    } else {
      ScrollNothing(t.page, t.alternate, c.width, c.height, t.x, t.y, 1, cell);
    }
  }

  lemma DrawInserts(c: Config, t: Term, ch: CodeUnit)
    requires Sound(c, t) && t.page.Fits(c.width, c.height) && !t.modes.printing && t.modes.insert && !t.needWrap
    requires 32 <= ch <= 126
    ensures var row := t.page.rows[t.y];
      Draw(c, t, ch)
      == t.(page := t.page.(rows := t.page.rows[t.y := row[..t.x] + [Cell(ch, t.pen.color, t.pen.style)] + row[t.x..c.width - 1]]),
            x := Min(t.x + 1, c.width - 1), needWrap := t.x + 1 == c.width && t.modes.autoWrap, last := ch)
  {
    hide Prepared, Inserted, Splice;
    RoomMade(c, t);
    PutBehind(t.page, t.x, t.y, Cell(ch, t.pen.color, t.pen.style), MakeCell(SPACE, t.pen.color, Plain), c.width, c.height);
  }

  // The state after a text is put in at the cursor.
  function PutIn(c: Config, t: Term, s: seq<CodeUnit>): (r: Term)
    requires Sound(c, t) && t.page.Fits(c.width, c.height) && t.x + |s| <= c.width
    ensures Sound(c, r)
  {
    if s == [] then t
    else
      var row := t.page.rows[t.y];
      var rest := row[t.x..c.width - |s|];
      Heard(t).(page := t.page.(rows := t.page.rows[t.y := row[..t.x] + Styled(s, t.pen.color, t.pen.style) + rest]),
                x := if rest != [] then t.x + |s| else c.width - 1,
                needWrap := rest == [] && t.modes.autoWrap, last := s[|s| - 1])
  }

  lemma SumParts(a: Row, b: Row, k: nat)
    requires k <= |b|
    ensures (a + b)[..|a|] == a && (a + b)[|a|..|a| + k] == b[..k]
  {
  }

  lemma PartOfPart(row: Row, x: nat, y: nat, k: nat)
    requires x + k <= y <= |row|
    ensures row[x..y][..k] == row[x..x + k]
  {
  }

  lemma RowGrows(row: Row, x: nat, cells: Row, cell: Cell)
    requires x + |cells| < |row|
    ensures var n := |cells|; var now := row[..x] + cells + row[x..|row| - n];
      now[..x + n] + [cell] + now[x + n..|row| - 1] == row[..x] + (cells + [cell]) + row[x..|row| - n - 1]
  {
    var n := |cells|;
    var k := |row| - n - 1 - x;
    SumParts(row[..x] + cells, row[x..|row| - n], k);
    PartOfPart(row, x, |row| - n, k);
    assert row[..x] + cells + [cell] == row[..x] + (cells + [cell]);
  }

  lemma PutInSoFar(c: Config, t: Term, s: seq<CodeUnit>)
    requires Sound(c, t) && t.page.Fits(c.width, c.height) && t.x + |s| < c.width && !t.needWrap
    ensures var t1 := Heard(PutIn(c, t, s)); var row := t.page.rows[t.y];
      && t1.page == t.page.(rows := t.page.rows[t.y :=
                      row[..t.x] + Styled(s, t.pen.color, t.pen.style) + row[t.x..c.width - |s|]])
      && t1 == Heard(t).(page := t1.page, x := t.x + |s|, last := t1.last)
  {
    if s == [] {
      var row := t.page.rows[t.y];
      assert row[..t.x] + Styled(s, t.pen.color, t.pen.style) + row[t.x..c.width - |s|] == row;
    }
  }

  lemma PutInOne(c: Config, t: Term, s: seq<CodeUnit>, ch: CodeUnit)
    requires Sound(c, t) && t.page.Fits(c.width, c.height) && t.x + |s| < c.width
    requires !t.modes.printing && t.modes.insert && !t.needWrap && 32 <= ch <= 126
    ensures Draw(c, Heard(PutIn(c, t, s)), ch) == PutIn(c, t, s + [ch])
  {
    PutInSoFar(c, t, s);
    var t1 := Heard(PutIn(c, t, s));
    hide Draw, Styled;
    DrawInserts(c, t1, ch);
    RowGrows(t.page.rows[t.y], t.x, Styled(s, t.pen.color, t.pen.style), Cell(ch, t.pen.color, t.pen.style));
    StyledMore(s, ch, t.pen.color, t.pen.style);
  }

  lemma StyledMore(s: seq<CodeUnit>, ch: CodeUnit, cls: Class, style: Style)
    ensures Styled(s + [ch], cls, style) == Styled(s, cls, style) + [Cell(ch, cls, style)]
    ensures Styled([], cls, style) == []
  {
  }

  /** In insert mode a text pushes the rest of the row to the right; what passes the
      border is lost. */
  lemma {:induction false} TextInserted(c: Config, t: Term, s: seq<CodeUnit>, nested: bool)
    requires Sound(c, t) && t.page.Fits(c.width, c.height) && !t.modes.printing && t.parser.esc == Normal
    requires t.modes.insert && !t.needWrap && AllTypeable(c, t.sets, t.modes, s) && t.x + |s| <= c.width
    ensures Process(c, t, s, nested) == PutIn(c, t, s)
    decreases |s|
  {
    hide Step, Typeable, Draw;
    if s != [] {
      var init, ch := s[..|s| - 1], s[|s| - 1];
      assert Typeable(c, t.sets, t.modes, ch);
      TypeableAscii(c, t.sets, t.modes, ch);
      TextInserted(c, t, init, nested);
      StepDraws(c, PutIn(c, t, init), ch, nested);
      PutInOne(c, t, init, ch);
      assert s == init + [ch];
    }
  }

  lemma TypeableAscii(c: Config, sets: Charsets, modes: Modes, ch: CodeUnit)
    requires Typeable(c, sets, modes, ch)
    ensures 32 <= ch <= 126
  {
  }
}
