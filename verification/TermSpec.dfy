/** What the terminal does with its input, one character at a time, on the plain
    grid: the reference that the coalescing renderer must agree with. */
module TermSpec {
  import opened Cells
  import opened Grid

  datatype Charset = Latin1 | Graphics | CodePage437 | DirectToFont

  type Table = s: seq<CodeUnit> | |s| == 256 witness seq(256, _ => 0)

  // Fixed for the life of a terminal: its size, and the translation tables.
  datatype Config = Config(width: nat, height: nat, utfPreferred: bool,
                           latin1: Table, graphics: Table, codePage437: Table, directToFont: Table) {
    predicate Valid() {
      width >= 1 && height >= 1
    }

    function Lookup(set_: Charset, ch: CodeUnit): CodeUnit
      requires ch < 256
    {
      match set_
      case Latin1 => latin1[ch]
      case Graphics => graphics[ch]
      case CodePage437 => codePage437[ch]
      case DirectToFont => directToFont[ch]
    }
  }

  datatype Attr = Attr(fg: nat, bg: nat, reverse: bool, underline: bool, dim: bool, bright: bool, blink: bool)

  const ATTR_DEFAULT := Attr(0, 15, false, false, false, false, false)

  datatype Pen = Pen(attr: Attr, color: Class, style: Style)

  datatype Charsets = Charsets(use: nat, g: seq<Charset>, translate: Charset)

  const DEFAULT_SETS := [Latin1, Graphics, CodePage437, DirectToFont]

  datatype Saved = Saved(valid: bool, x: int, y: int, attr: Attr)

  datatype Modes = Modes(autoWrap: bool, dispCtrl: bool, toggleMeta: bool, insert: bool, crLf: bool, offset: bool,
                         printing: bool, utf: bool)

  datatype Esc = Normal | Escape | Square | GetPars | DeviceAttr | FuncKey | Hash | SetG(n: nat) | Bang | Percent
               | NonStd | Palette | Status | Shift(n: nat)

  // The parameters start out as sixteen zeros; `par` holds those set since.
  datatype Parser = Parser(esc: Esc, npar: nat, par: map<nat, nat>, question: bool)

  datatype Utf = Utf(count: nat, ch: nat)

  datatype Answer = DeviceId | SecondaryId | StatusOk | CursorAt(row: int, column: int)

  /** The whole state of the terminal. */
  datatype Term = Term(
    page: Grid, other: Grid, alternate: bool,
    x: int, y: int, needWrap: bool,
    top: int, bottom: int,
    modes: Modes, pen: Pen, sets: Charsets,
    saved: Saved, savedAlternate: Saved, savedSets: Charsets,
    parser: Parser, utf: Utf, tabs: map<int, bool>, last: CodeUnit)

  predicate SetsOk(s: Charsets) {
    s.use <= 1 && |s.g| == 4
  }

  predicate EscOk(e: Esc) {
    (e.SetG? ==> e.n <= 3) && (e.Shift? ==> e.n <= 1)
  }

  // Text in this class can be read.
  predicate Readable(cls: Class) {
    cls.Ansi? && cls.fg != cls.bg
  }

  /** What every input keeps: a proper scroll region, a defined parser state, a way
      back from the alternate screen, readable colours ... */
  predicate Framed(c: Config, t: Term) {
    && c.Valid()
    && |t.page.rows| == c.height && |t.other.rows| == c.height
    && 0 <= t.top < t.bottom <= c.height
    && SetsOk(t.sets) && SetsOk(t.savedSets)
    && (t.alternate ==> t.saved.valid)
    && EscOk(t.parser.esc)
    && UtfOk(t.utf)
    && Readable(t.pen.color)
  }

  /** ... and the cursor on the screen. */
  predicate Sound(c: Config, t: Term) {
    Framed(c, t) && 0 <= t.x < c.width && 0 <= t.y < c.height
  }

  // One more than the largest value that `count` missing bytes, of six bits each,
  // can still extend within 31 bits.
  function Room(count: nat): nat {
    if count == 0 then 0x8000_0000
    else if count == 1 then 0x200_0000
    else if count == 2 then 0x8_0000
    else if count == 3 then 0x2000
    else if count == 4 then 0x80
    else 2
  }

  predicate UtfOk(u: Utf) {
    u.count <= 5 && u.ch < Room(u.count)
  }

  // ---- Cursor and screen ----

  function Min(a: int, b: int): int { if a < b then a else b }

  /** VT100.gotoXY */
  function Goto(c: Config, t: Term, x: int, y: int): (r: Term)
    requires Framed(c, t)
    ensures Sound(c, r)
  {
    var x' := if x >= c.width then c.width - 1 else x;
    var minY, maxY := if t.modes.offset then t.top else 0, if t.modes.offset then t.bottom else c.height;
    var y' := if y >= maxY then maxY - 1 else y;
    t.(x := if x' < 0 then 0 else x', y := if y' < minY then minY else y', needWrap := false)
  }

  /** VT100.gotoXaY */
  function GotoRelative(c: Config, t: Term, x: int, y: int): (r: Term)
    requires Framed(c, t)
    ensures Sound(c, r)
  {
    Goto(c, t, x, if t.modes.offset then t.top + y else y)
  }

  function Blank(t: Term): Cell {
    MakeCell(SPACE, t.pen.color, t.pen.style)
  }

  /** VT100.clearRegion in the current colours. */
  function ClearIn(c: Config, t: Term, x: int, y: int, w: int, h: int): (r: Term)
    requires Sound(c, t)
    ensures Sound(c, r)
  {
    t.(page := Clear(t.page, c.width, c.height, x, y, w, h, Blank(t)))
  }

  /** VT100.scrollRegion in the current colours. */
  function ScrollIn(c: Config, t: Term, x: int, y: int, w: int, h: int, incX: int, incY: int): (r: Term)
    requires Sound(c, t)
    ensures Sound(c, r)
  {
    t.(page := Scroll(t.page, t.alternate, c.width, c.height, x, y, w, h, incX, incY,
                      MakeCell(SPACE, t.pen.color, Plain)))
  }

  function Bs(c: Config, t: Term): (r: Term)
    requires Sound(c, t)
    ensures Sound(c, r)
  {
    if t.x > 0 then Goto(c, t, t.x - 1, t.y) else t
  }

  function Cr(c: Config, t: Term): (r: Term)
    requires Sound(c, t)
    ensures Sound(c, r)
  {
    Goto(c, t, 0, t.y)
  }

  // A tab stop: set by the user, or by default at each eighth column.
  predicate IsTab(tabs: map<int, bool>, x: int) {
    if x in tabs then tabs[x] else x % 8 == 0
  }

  // The next tab stop after column x, or just past the right border.
  function NextTab(tabs: map<int, bool>, x: int, width: nat): (r: int)
    ensures r > x
    decreases width - x
  {
    if x >= width || IsTab(tabs, x + 1) then x + 1 else NextTab(tabs, x + 1, width)
  }

  function TabRight(tabs: map<int, bool>, x: int, count: nat, width: nat): int
    decreases count
  {
    if count == 0 then x else TabRight(tabs, NextTab(tabs, x, width), count - 1, width)
  }

  function Ht(c: Config, t: Term, count: nat): (r: Term)
    requires Sound(c, t)
    ensures Sound(c, r)
  {
    var x := Min(TabRight(t.tabs, t.x, count, c.width), c.width - 1);
    if x != t.x then Goto(c, t, x, t.y) else t
  }

  // The tab stop before column x, or just past the left border.
  function PreviousTab(tabs: map<int, bool>, x: int): (r: int)
    ensures r < x
    decreases x
  {
    if x <= 0 || IsTab(tabs, x - 1) then x - 1 else PreviousTab(tabs, x - 1)
  }

  function TabLeft(tabs: map<int, bool>, x: int, count: nat): int
    decreases count
  {
    if count == 0 then x else TabLeft(tabs, PreviousTab(tabs, x), count - 1)
  }

  function Rt(c: Config, t: Term, count: nat): (r: Term)
    requires Sound(c, t)
    ensures Sound(c, r)
  {
    var x := TabLeft(t.tabs, t.x, count);
    var x' := if x < 0 then 0 else x;
    if x' != t.x then Goto(c, t, x', t.y) else t
  }

  function LineFeed(c: Config, t: Term): (r: Term)
    requires Sound(c, t)
    ensures Sound(c, r)
  {
    if t.y == t.bottom - 1 then ScrollIn(c, t, 0, t.top + 1, c.width, t.bottom - t.top - 1, 0, -1)
    else if t.y < c.height - 1 then Goto(c, t, t.x, t.y + 1)
    else t
  }

  function Lf(c: Config, t: Term, count: nat): (r: Term)
    requires Sound(c, t)
    ensures Sound(c, r)
    decreases count
  {
    if count == 0 then t else Lf(c, LineFeed(c, t), count - 1)
  }

  function ReverseFeed(c: Config, t: Term): (r: Term)
    requires Sound(c, t)
    ensures Sound(c, r)
  {
    if t.y == t.top then ScrollIn(c, t, 0, t.top, c.width, t.bottom - t.top - 1, 0, 1)
    else if t.y > 0 then Goto(c, t, t.x, t.y - 1)
    else t
  }

  function RiTimes(c: Config, t: Term, count: nat): (r: Term)
    requires Sound(c, t)
    ensures Sound(c, r)
    decreases count
  {
    if count == 0 then t else RiTimes(c, ReverseFeed(c, t), count - 1)
  }

  function Ri(c: Config, t: Term, count: nat): (r: Term)
    requires Sound(c, t)
    ensures Sound(c, r)
  {
    RiTimes(c, t, count).(needWrap := false)
  }

  function ClampCount(c: Config, count: nat): nat {
    if count > c.height then c.height else if count < 1 then 1 else count
  }

  // ---- Colours, charsets, saving and restoring ----

  function Flip8(n: nat): nat {
    if n / 8 % 2 == 1 then n - 8 else n + 8
  }

  /** VT100.updateStyle: the colours to draw in, made readable. */
  function PenFor(a: Attr): (p: Pen)
    ensures Readable(p.color) && p.attr == a
  {
    var bg0 := if a.reverse then a.fg else a.bg;
    var fg0 := if a.reverse then a.bg else a.fg;
    var fg1 := if a.dim && !a.reverse then 8 else if a.bright && fg0 / 8 % 2 == 0 then fg0 + 8 else fg0;
    var bg := if a.blink then Flip8(bg0) else bg0;
    var fg2 := if bg == fg1 then (if Flip8(fg1) == 7 then 8 else Flip8(fg1)) else fg1;
    var fg := if bg == 7 && fg2 >= 8 then (if fg2 - 8 == 7 then 8 else fg2 - 8) else fg2;
    Pen(a, Ansi(fg, bg), if a.underline then Underline else Plain)
  }

  function SaveCursor(t: Term): Term {
    var s := Saved(true, t.x, t.y, t.pen.attr);
    var sets := t.savedSets.(use := t.sets.use, g := t.sets.g);
    if t.alternate then t.(savedAlternate := s, savedSets := sets) else t.(saved := s, savedSets := sets)
  }

  function RestoreCursor(c: Config, t: Term): (r: Term)
    requires Framed(c, t)
    requires (if t.alternate then t.savedAlternate else t.saved).valid || Sound(c, t)
    ensures Sound(c, r) && r.parser == t.parser && r.alternate == t.alternate
  {
    var s := if t.alternate then t.savedAlternate else t.saved;
    if !s.valid then t
    else
      var sets := Charsets(t.savedSets.use, t.savedSets.g, t.savedSets.g[t.savedSets.use]);
      Goto(c, t.(pen := PenFor(s.attr), sets := sets, needWrap := false), s.x, s.y)
  }

  /** VT100.enableAlternateScreen, for a window of fixed size. */
  function EnableAlternate(c: Config, t: Term, state: bool): (r: Term)
    requires Sound(c, t)
    ensures Sound(c, r) && r.alternate == state && r.parser == t.parser
  {
    if state == t.alternate then t
    else if state then
      var saved := SaveCursor(t);
      var switched := Goto(c, saved.(page := t.other, other := t.page, alternate := true), 0, 0);
      switched.(page := Clear(switched.page, c.width, c.height, 0, 0, c.width, c.height, BLANK_CELL))
    else
      RestoreCursor(c, t.(page := t.other, other := t.page, alternate := false))
  }

  const INITIAL_MODES := Modes(true, false, false, false, false, false, false, true)

  // Every mode and parser setting as it was at first ...
  function ResetModes(c: Config, t: Term): (r: Term)
    requires Sound(c, t)
    ensures Sound(c, r)
  {
    t.(parser := t.parser.(esc := Normal), needWrap := false,
       modes := INITIAL_MODES.(utf := c.utfPreferred), utf := Utf(0, 0))
  }

  // ... and every drawing setting.
  function ResetPen(c: Config, t: Term): (r: Term)
    requires Sound(c, t)
    ensures Sound(c, r)
  {
    t.(pen := Pen(ATTR_DEFAULT, DEFAULT_CLASS, Plain), sets := Charsets(0, DEFAULT_SETS, Latin1),
       top := 0, bottom := c.height, last := SPACE, tabs := map[])
  }

  /** VT100.reset without clearing the history. */
  function Reset(c: Config, t: Term): (r: Term)
    requires Sound(c, t)
    ensures Sound(c, r)
  {
    ClearIn(c, Goto(c, EnableAlternate(c, ResetPen(c, ResetModes(c, t)), false), 0, 0), 0, 0, c.width, c.height)
  }

  function SetMode(c: Config, t: Term, par: nat, state: bool): (r: Term)
    requires Sound(c, t)
    ensures Sound(c, r) && r.parser == t.parser
  {
    if t.parser.question then
      if par == 6 then t.(modes := t.modes.(offset := state))
      else if par == 7 then t.(modes := t.modes.(autoWrap := state))
      else if par == 47 || par == 1047 || par == 1049 then EnableAlternate(c, t, state)
      else t
    else
      if par == 3 then t.(modes := t.modes.(dispCtrl := state))
      else if par == 4 then t.(modes := t.modes.(insert := state))
      else if par == 20 then t.(modes := t.modes.(crLf := state))
      else t
  }

  // Whether parameter `i` is defined at all.
  predicate Given(p: Parser, i: nat) {
    i < 16 || i in p.par
  }

  function Par(p: Parser, i: nat): nat {
    if i in p.par then p.par[i] else 0
  }

  function SetModes(c: Config, t: Term, i: nat, state: bool): (r: Term)
    requires Sound(c, t)
    ensures Sound(c, r)
    decreases t.parser.npar + 1 - i
  {
    if i > t.parser.npar then t
    else
      SetModes(c, if Given(t.parser, i) then SetMode(c, t, Par(t.parser, i), state) else t, i + 1, state)
  }

  /** What one parameter of CSI m (select graphic rendition) does to the attributes. */
  function RenditionAttr(a: Attr, par: nat): Attr {
    if par == 0 then ATTR_DEFAULT
    else if par == 1 then a.(dim := false, bright := true)
    else if par == 2 then a.(bright := false, dim := true)
    else if par == 4 then a.(underline := true)
    else if par == 5 then a.(blink := true)
    else if par == 7 then a.(reverse := true)
    else if par == 21 || par == 22 then a.(bright := false, dim := false)
    else if par == 24 then a.(underline := false)
    else if par == 25 then a.(blink := false)
    else if par == 27 then a.(reverse := false)
    else if par == 38 then a.(dim := false, bright := false, fg := 0, underline := true)
    else if par == 39 then a.(dim := false, bright := false, underline := false, fg := 0)
    else if par == 49 then a.(bg := 15)
    else if 30 <= par <= 37 then a.(fg := par - 30)
    else if 40 <= par <= 47 then a.(bg := par - 40)
    else a
  }

  function Rendition(t: Term, par: nat): Term
    requires SetsOk(t.sets)
  {
    if par == 10 then WithFont(t, t.sets.g[t.sets.use], false, false)
    else if par == 11 then WithFont(t, CodePage437, true, false)
    else if par == 12 then WithFont(t, CodePage437, true, true)
    else t.(pen := t.pen.(attr := RenditionAttr(t.pen.attr, par)))
  }

  function WithFont(t: Term, set_: Charset, dispCtrl: bool, toggleMeta: bool): Term {
    t.(sets := t.sets.(translate := set_), modes := t.modes.(dispCtrl := dispCtrl, toggleMeta := toggleMeta))
  }

  function Renditions(c: Config, t: Term, i: nat): (r: Term)
    requires Sound(c, t)
    ensures Sound(c, r)
    decreases t.parser.npar + 1 - i
  {
    if i > t.parser.npar then t.(pen := PenFor(t.pen.attr))
    else Renditions(c, if Given(t.parser, i) then Rendition(t, Par(t.parser, i)) else t, i + 1)
  }

  // ---- Control sequences ----

  // A parameter that defaults to one.
  function Par1(p: Parser, i: nat): nat {
    if Par(p, i) == 0 then 1 else Par(p, i)
  }

  function AtMost(count: nat, limit: int): int {
    Min(if count == 0 then 1 else count, limit)
  }

  // CSI @: insert blanks.
  function InsertChars(c: Config, t: Term, count: nat): (r: Term)
    requires Sound(c, t)
    ensures Sound(c, r)
  {
    var n := AtMost(count, c.width - t.x);
    ScrollIn(c, t, t.x, t.y, c.width - t.x - n, 1, n, 0).(needWrap := false)
  }

  // CSI P: delete characters.
  function DeleteChars(c: Config, t: Term, count: nat): (r: Term)
    requires Sound(c, t)
    ensures Sound(c, r)
  {
    var n := AtMost(count, c.width - t.x);
    ScrollIn(c, t, t.x + n, t.y, c.width - t.x - n, 1, 0 - n, 0)
  }

  // CSI L: insert lines.
  function InsertLines(c: Config, t: Term, count: nat): (r: Term)
    requires Sound(c, t)
    ensures Sound(c, r)
  {
    if t.y >= t.bottom then t
    else
      var n := AtMost(count, t.bottom - t.y);
      ScrollIn(c, t, 0, t.y, c.width, t.bottom - t.y - n, 0, n)
  }

  // CSI M: delete lines.
  function DeleteLines(c: Config, t: Term, count: nat): (r: Term)
    requires Sound(c, t)
    ensures Sound(c, r)
  {
    if t.y >= t.bottom then t
    else
      var n := AtMost(count, t.bottom - t.y);
      ScrollIn(c, t, 0, t.y + n, c.width, t.bottom - t.y - n, 0, 0 - n)
  }

  // CSI J: erase in the display.
  function EraseDisplay(c: Config, t: Term, how: nat): (r: Term)
    requires Sound(c, t)
    ensures Sound(c, r)
  {
    if how == 0 then
      var t1 := ClearIn(c, t, t.x, t.y, c.width - t.x, 1);
      if t.y < c.height - 2 then ClearIn(c, t1, 0, t.y + 1, c.width, c.height - t.y - 1) else t1
    else if how == 1 then
      var t1 := if t.y > 0 then ClearIn(c, t, 0, 0, c.width, t.y) else t;
      ClearIn(c, t1, 0, t.y, t.x + 1, 1)
    else if how == 2 then ClearIn(c, t, 0, 0, c.width, c.height)
    else t
  }

  // CSI K: erase in the line.
  function EraseLine(c: Config, t: Term, how: nat): (r: Term)
    requires Sound(c, t)
    ensures Sound(c, r)
  {
    if how == 0 then ClearIn(c, t, t.x, t.y, c.width - t.x, 1)
    else if how == 1 then ClearIn(c, t, 0, t.y, t.x + 1, 1)
    else if how == 2 then ClearIn(c, t, 0, t.y, c.width, 1)
    else t
  }

  // CSI X: erase characters.
  function EraseChars(c: Config, t: Term, count: nat): (r: Term)
    requires Sound(c, t)
    ensures Sound(c, r)
  {
    ClearIn(c, t, t.x, t.y, AtMost(count, c.width - t.x), 1)
  }

  // CSI r: set the scroll region.
  function SetRegion(c: Config, t: Term): (r: Term)
    requires Sound(c, t)
    ensures Sound(c, r)
  {
    var first := Par1(t.parser, 0);
    var last := if Par(t.parser, 1) == 0 then c.height else Par(t.parser, 1);
    if first < last <= c.height then GotoRelative(c, t.(top := first - 1, bottom := last), 0, 0) else t
  }

  function NoTabs(width: nat): map<int, bool> {
    if width == 0 then map[] else NoTabs(width - 1)[width - 1 := false]
  }

  // CSI g: clear tab stops.
  function ClearTabs(c: Config, t: Term): Term {
    if Par(t.parser, 0) == 0 then t.(tabs := t.tabs[t.x := false])
    else if Par(t.parser, 0) == 2 || Par(t.parser, 0) == 3
    then t.(tabs := NoTabs(c.width))
    else t
  }

  /** The control sequences that place the cursor. */
  function CsiGoto(c: Config, t: Term, ch: CodeUnit): (r: Term)
    requires Sound(c, t)
    ensures Sound(c, r)
  {
    var p := t.parser;
    if ch == 0x47 || ch == 0x60 then Goto(c, t, Par(p, 0) - 1, t.y)
    else if ch == 0x41 then Goto(c, t, t.x, t.y - Par1(p, 0))
    else if ch == 0x42 || ch == 0x65 then Goto(c, t, t.x, t.y + Par1(p, 0))
    else if ch == 0x43 || ch == 0x61 then Goto(c, t, t.x + Par1(p, 0), t.y)
    else if ch == 0x44 then Goto(c, t, t.x - Par1(p, 0), t.y)
    else if ch == 0x45 then Goto(c, t, 0, t.y + Par1(p, 0))
    else if ch == 0x46 then Goto(c, t, 0, t.y - Par1(p, 0))
    else if ch == 0x64 then GotoRelative(c, t, t.x, Par(p, 0) - 1)
    else if ch == 0x48 || ch == 0x66 then GotoRelative(c, t, Par(p, 1) - 1, Par(p, 0) - 1)
    else t
  }

  predicate PlacesCursor(ch: CodeUnit) {
    0x41 <= ch <= 0x48 || 0x60 <= ch <= 0x61 || 0x64 <= ch <= 0x66
  }

  /** The control sequences that move the cursor by tabs or lines, or save it. */
  function CsiTravel(c: Config, t: Term, ch: CodeUnit): (r: Term)
    requires Sound(c, t)
    ensures Sound(c, r)
  {
    var n := Par1(t.parser, 0);
    if ch == 0x49 then Ht(c, t, n)
    else if ch == 0x5A then Rt(c, t, n)
    else if ch == 0x53 then Lf(c, t, ClampCount(c, n))
    else if ch == 0x54 then Ri(c, t, ClampCount(c, n))
    else if ch == 0x73 then SaveCursor(t)
    else if ch == 0x75 then RestoreCursor(c, t)
    else t
  }

  predicate Travels(ch: CodeUnit) {
    ch == 0x49 || ch == 0x5A || ch == 0x53 || ch == 0x54 || ch == 0x73 || ch == 0x75
  }

  /** The control sequences that edit the screen. */
  function CsiEdit(c: Config, t: Term, ch: CodeUnit): (r: Term)
    requires Sound(c, t)
    ensures Sound(c, r)
  {
    var n := Par(t.parser, 0);
    if ch == 0x40 then InsertChars(c, t, n)
    else if ch == 0x4A then EraseDisplay(c, t, n)
    else if ch == 0x4B then EraseLine(c, t, n)
    else if ch == 0x4C then InsertLines(c, t, n)
    else if ch == 0x4D then DeleteLines(c, t, n)
    else if ch == 0x50 then DeleteChars(c, t, n)
    else if ch == 0x58 then EraseChars(c, t, n)
    else t
  }

  predicate EditsScreen(ch: CodeUnit) {
    ch == 0x40 || 0x4A <= ch <= 0x4D || ch == 0x50 || ch == 0x58
  }

  /** All other control sequences that leave the text of the screen alone. */
  function CsiOther(c: Config, t: Term, ch: CodeUnit): (r: Term)
    requires Sound(c, t)
    ensures Sound(c, r)
  {
    var n := Par(t.parser, 0);
    if ch == 0x21 then WithEsc(t, Bang)
    else if ch == 0x3E then (if t.parser.npar == 0 then WithEsc(t, DeviceAttr) else t)
    else if ch == 0x69 then
      (if n == 4 then t.(modes := t.modes.(printing := false))
       else if n == 5 then t.(modes := t.modes.(printing := true))
       else t)
    else if ch == 0x6D then Renditions(c, t, 0)
    else if ch == 0x67 then ClearTabs(c, t)
    else if ch == 0x68 then SetModes(c, t, 0, true)
    else if ch == 0x6C then SetModes(c, t, 0, false)
    else if ch == 0x72 then SetRegion(c, t)
    else t
  }

  function WithEsc(t: Term, e: Esc): Term {
    t.(parser := t.parser.(esc := e))
  }

  // CSI b: the last character once more, as often as the screen has room.
  function Repeated(c: Config, t: Term): seq<CodeUnit> {
    seq(Min(Par1(t.parser, 0), c.width * c.height), _ => t.last)
  }

  // The end of a control sequence that began with a question mark.
  function CsiPrivate(c: Config, t: Term, ch: CodeUnit): (r: Term)
    requires Sound(c, t)
    ensures Sound(c, r)
  {
    var t1 := if ch == 0x68 then SetModes(c, t, 0, true) else if ch == 0x6C then SetModes(c, t, 0, false) else t;
    t1.(parser := t1.parser.(question := false))
  }

  /** The end of a control sequence: its parameters are known.  A repetition is
      not drawn at once, but handed back as text to process. */
  function CsiEnd(c: Config, t0: Term, ch: CodeUnit): (r: (Term, seq<CodeUnit>))
    requires Sound(c, t0)
    ensures Sound(c, r.0)
  {
    var t := WithEsc(t0, Normal);
    if t.parser.question then (CsiPrivate(c, t, ch), [])
    else if PlacesCursor(ch) then (CsiGoto(c, t, ch), [])
    else if Travels(ch) then (CsiTravel(c, t, ch), [])
    else if EditsScreen(ch) then (CsiEdit(c, t, ch), [])
    else if ch == 0x62 then (t, Repeated(c, t))
    else (CsiOther(c, t, ch), [])
  }

  // A digit or a separator of the parameters, or else the end of the sequence.
  function Digit(p: Parser, ch: CodeUnit): Parser {
    p.(par := p.par[p.npar := 10 * Par(p, p.npar) + ch % 16])
  }

  predicate IsDigit(ch: CodeUnit) { 0x30 <= ch <= 0x39 }

  function CsiParameter(c: Config, t: Term, ch: CodeUnit): (r: (Term, seq<CodeUnit>))
    requires Sound(c, t)
    ensures Sound(c, r.0)
  {
    if ch == 0x3B then (t.(parser := t.parser.(npar := t.parser.npar + 1)), [])
    else if IsDigit(ch) then (t.(parser := Digit(t.parser, ch)), [])
    else if t.parser.esc == DeviceAttr then (WithEsc(t, Normal), [])
    else CsiEnd(c, t, ch)
  }

  // The parser state that the character after ESC leads to.
  function EscapeNext(ch: CodeUnit): (e: Esc)
    ensures EscOk(e)
  {
    if ch == 0x25 then Percent
    else if ch == 0x28 then SetG(0)
    else if ch == 0x2D || ch == 0x29 then SetG(1)
    else if ch == 0x2E || ch == 0x2A then SetG(2)
    else if ch == 0x2F || ch == 0x2B then SetG(3)
    else if ch == 0x23 then Hash
    else if ch == 0x4E then Shift(0)
    else if ch == 0x4F then Shift(1)
    else if ch == 0x5B then Square
    else if ch == 0x5D then NonStd
    else Normal
  }

  /** The character after ESC. */
  function AfterEscape(c: Config, t0: Term, ch: CodeUnit): (r: Term)
    requires Sound(c, t0)
    ensures Sound(c, r)
  {
    var t := WithEsc(t0, EscapeNext(ch));
    if ch == 0x37 then SaveCursor(t)
    else if ch == 0x38 then RestoreCursor(c, t)
    else if ch == 0x44 then Lf(c, t, 1)
    else if ch == 0x45 then Lf(c, Cr(c, t), 1)
    else if ch == 0x4D then Ri(c, t, 1)
    else if ch == 0x48 then t.(tabs := t.tabs[t.x := true])
    else if ch == 0x63 then Reset(c, t)
    else t
  }

  predicate IsHexDigit(ch: CodeUnit) {
    IsDigit(ch) || 0x41 <= ch <= 0x46 || 0x61 <= ch <= 0x66
  }

  function HexValue(ch: CodeUnit): nat
    requires IsHexDigit(ch)
  {
    if ch <= 0x39 then ch % 16 else if ch >= 0x61 then ch - 0x61 + 10 else ch - 0x37
  }

  // One digit of a palette entry; palettes are not implemented.
  function PaletteDigit(p: Parser, ch: CodeUnit): Parser {
    if !IsHexDigit(ch) then p.(esc := Normal)
    else p.(par := p.par[p.npar := HexValue(ch)], npar := p.npar + 1, esc := if p.npar == 6 then Normal else Palette)
  }

  // ESC ( and its kind: puts a character set into G0 to G3.
  function SetCharset(sets: Charsets, n: nat, ch: CodeUnit): (r: Charsets)
    requires SetsOk(sets) && n <= 3
    ensures SetsOk(r)
  {
    var g := if ch == 0x30 then sets.g[n := Graphics]
             else if ch == 0x42 then sets.g[n := Latin1]
             else if ch == 0x55 then sets.g[n := CodePage437]
             else if ch == 0x4B then sets.g[n := DirectToFont]
             else sets.g;
    sets.(g := g, translate := if sets.use == n then g[n] else sets.translate)
  }

  function ToggleMeta(t: Term, ch: CodeUnit): CodeUnit {
    if t.modes.toggleMeta && ch / 128 % 2 == 0 then ch + 128 else ch
  }

  // How a translated character is drawn: font-direct ones as they are, and
  // zero-width ones not at all.
  datatype Glyph = Nothing | Glyph(ch: CodeUnit)

  function ToGlyph(ch: CodeUnit): Glyph {
    if ch / 256 % 256 == 0xF0 then Glyph(ch % 256)
    else if ch == 0xFEFF || 0x200A <= ch <= 0x200F then Nothing
    else Glyph(ch)
  }

  // A single character from G2 or G3.
  function SingleShift(c: Config, t: Term, n: nat, ch: CodeUnit): (r: (Term, seq<CodeUnit>))
    requires Sound(c, t) && n <= 1
    ensures Sound(c, r.0)
  {
    var glyph := if ch < 256 then ToGlyph(c.Lookup(t.sets.g[n + 2], ToggleMeta(t, ch))) else Glyph(ch);
    if glyph.Nothing? then (WithEsc(t, Normal), [])
    else (WithEsc(t.(last := glyph.ch), Normal), [glyph.ch])
  }

  // The first character after CSI.
  function AfterCsi(c: Config, t: Term, ch: CodeUnit): (r: (Term, seq<CodeUnit>))
    requires Sound(c, t)
    ensures Sound(c, r.0)
  {
    var t1 := t.(parser := Parser(GetPars, 0, map[], t.parser.question));
    if ch == 0x5B then (WithEsc(t1, FuncKey), [])
    else
      var t2 := t1.(parser := t1.parser.(question := ch == 0x3F));
      if ch == 0x3F then (t2, []) else CsiParameter(c, t2, ch)
  }

  // The sequences of one more character, and those that are not implemented.
  function ShortParser(p: Parser, ch: CodeUnit): (r: Parser)
    ensures EscOk(r.esc)
  {
    match p.esc
    case NonStd =>
      if 0x30 <= ch <= 0x32 then p.(esc := Status)
      else if ch == 0x50 then Parser(Palette, 0, map[], p.question)
      else p.(esc := Normal)
    case Palette => PaletteDigit(p, ch)
    case Status => if ch == 0x07 then p.(esc := Normal) else p
    case _ => p.(esc := Normal)
  }

  function InShortEscape(c: Config, t: Term, ch: CodeUnit): (r: Term)
    requires Sound(c, t)
    ensures Sound(c, r)
  {
    var e := t.parser.esc;
    var utf := if e != Percent then t.modes.utf
               else if ch == 0x40 then false else if ch == 0x47 || ch == 0x38 then true else t.modes.utf;
    t.(parser := ShortParser(t.parser, ch),
       modes := t.modes.(utf := utf),
       sets := if e.SetG? then SetCharset(t.sets, e.n, ch) else t.sets)
  }

  /** The next character of an escape sequence. */
  function InEscape(c: Config, t: Term, ch: CodeUnit): (r: (Term, seq<CodeUnit>))
    requires Sound(c, t)
    ensures Sound(c, r.0)
  {
    match t.parser.esc
    case Escape => (AfterEscape(c, t, ch), [])
    case Square => AfterCsi(c, t, ch)
    case GetPars => CsiParameter(c, t, ch)
    case DeviceAttr => CsiParameter(c, t, ch)
    case Shift(n) => SingleShift(c, t, n, ch)
    case _ => (InShortEscape(c, t, ch), [])
  }

  // What the line printer makes of a control character: it only looks for the
  // sequence that turns it off.
  function PrinterParser(p: Parser, ch: CodeUnit): (r: Parser)
    requires EscOk(p.esc)
    ensures EscOk(r.esc)
  {
    if ch == 9 || ch == 10 || ch == 12 || ch == 13 then p
    else if ch == 27 then p.(esc := Escape)
    else match p.esc
      case Escape => p.(esc := if ch == 0x5B then Square else Normal)
      case Square =>
        var p1 := Parser(GetPars, 0, map[], ch == 0x3F);
        if ch == 0x3F then p1 else PrinterParameter(p1, ch)
      case GetPars => PrinterParameter(p, ch)
      case _ => p.(esc := Normal)
  }

  function PrinterParameter(p: Parser, ch: CodeUnit): Parser {
    if ch == 0x3B then p.(npar := p.npar + 1)
    else if IsDigit(ch) then Digit(p, ch)
    else p.(esc := Normal)
  }

  // CSI 4 i
  predicate StopsPrinter(p: Parser, ch: CodeUnit) {
    ch == 0x69 && p.esc == GetPars && !p.question && Par(p, 0) == 4
  }

  function Printer(c: Config, t: Term, ch: CodeUnit): (r: Term)
    requires Sound(c, t)
    ensures Sound(c, r)
  {
    t.(parser := PrinterParser(t.parser, ch),
       modes := t.modes.(printing := t.modes.printing && !StopsPrinter(t.parser, ch)))
  }

  // The control characters that move the cursor.
  function ControlMove(c: Config, t: Term, ch: CodeUnit): (r: Term)
    requires Sound(c, t)
    ensures Sound(c, r)
  {
    if ch == 0x08 then Bs(c, t)
    else if ch == 0x09 then Ht(c, t, 1)
    else if ch == 0x0A || ch == 0x0B || ch == 0x0C || ch == 0x84 then
      (if t.modes.crLf then Cr(c, Lf(c, t, 1)) else Lf(c, t, 1))
    else if ch == 0x0D then Cr(c, t)
    else if ch == 0x85 then Lf(c, Cr(c, t), 1)
    else if ch == 0x8D then Ri(c, t, 1)
    else t
  }

  predicate ControlMoves(ch: CodeUnit) {
    0x08 <= ch <= 0x0D || ch == 0x84 || ch == 0x85 || ch == 0x8D
  }

  // The other control characters.
  function ControlState(c: Config, t: Term, ch: CodeUnit): (r: Term)
    requires Sound(c, t)
    ensures Sound(c, r)
  {
    if ch == 0x0E then
      t.(sets := t.sets.(use := 1, translate := t.sets.g[1]), modes := t.modes.(dispCtrl := true))
    else if ch == 0x0F then
      t.(sets := t.sets.(use := 0, translate := t.sets.g[0]), modes := t.modes.(dispCtrl := false))
    else if ch == 0x18 || ch == 0x1A then WithEsc(t, Normal)
    else if ch == 0x1B then WithEsc(t, Escape)
    else if ch == 0x88 then t.(tabs := t.tabs[t.x := true])
    else if ch == 0x8E then WithEsc(t, Shift(0))
    else if ch == 0x8F then WithEsc(t, Shift(1))
    else if ch == 0x9B then WithEsc(t, Square)
    else t
  }

  predicate ControlsState(ch: CodeUnit) {
    || ch == 0x00 || ch == 0x0E || ch == 0x0F || ch == 0x18 || ch == 0x1A || ch == 0x1B || ch == 0x7F || ch == 0x88
    || ch == 0x8E || ch == 0x8F || ch == 0x9A || ch == 0x9B
  }

  /** VT100.doControl: a control character, or the next one of an escape sequence;
      text that it stands for is handed back to process. */
  function Control(c: Config, t: Term, ch: CodeUnit): (r: (Term, seq<CodeUnit>))
    requires Sound(c, t)
    ensures Sound(c, r.0)
  {
    if t.modes.printing then (Printer(c, t, ch), [])
    else if ControlMoves(ch) then (ControlMove(c, t, ch), [])
    else if ControlsState(ch) then (ControlState(c, t, ch), [])
    else if ch == 0x07 && t.parser.esc != Status then (t, [])
    else InEscape(c, t, ch)
  }

  // ---- Answers ----

  // What the end of a control sequence makes the terminal send back.
  function CsiAnswer(t: Term, p: Parser, ch: CodeUnit): seq<Answer> {
    if ch == 0x3B || IsDigit(ch) || p.question then []
    else if ch == 0x63 && Par(p, 0) == 0 then [DeviceId]
    else if ch == 0x6E && Par(p, 0) == 5 then [StatusOk]
    else if ch == 0x6E && Par(p, 0) == 6 then
      [CursorAt(t.y + (if t.modes.offset then t.top + 1 else 1), t.x + 1)]
    else []
  }

  /** What a control character makes the terminal send back. */
  function Answers(t: Term, ch: CodeUnit): seq<Answer> {
    if t.modes.printing || ControlMoves(ch) then []
    else if ControlsState(ch) then (if ch == 0x9A then [DeviceId] else [])
    else if ch == 0x07 then []
    else match t.parser.esc
      case Escape => if ch == 0x5A then [DeviceId] else []
      case Square =>
        if ch == 0x5B || ch == 0x3F then [] else CsiAnswer(t, Parser(GetPars, 0, map[], false), ch)
      case GetPars => CsiAnswer(t, t.parser, ch)
      case DeviceAttr => if ch == 0x63 && Par(t.parser, 0) == 0 then [SecondaryId] else []
      case _ => []
  }

  // ---- Characters ----

  // `(ch & 0xC0) == 0x80`
  predicate Continues(ch: CodeUnit) {
    0x80 <= ch % 256 < 0xC0
  }

  // The rest of a byte sequence that starts with `ch`, and its first bits.  The
  // code masks `ch`, so that only its low byte matters.
  function StartUtf(ch: CodeUnit): (u: Utf)
    ensures UtfOk(u) && (u.count > 0 ==> !Continues(ch))
  {
    var b := ch % 256;
    if 0xC0 <= b < 0xE0 then Utf(1, b - 0xC0)
    else if 0xE0 <= b < 0xF0 then Utf(2, b - 0xE0)
    else if 0xF0 <= b < 0xF8 then Utf(3, b - 0xF0)
    else if 0xF8 <= b < 0xFC then Utf(4, b - 0xF8)
    else if 0xFC <= b < 0xFE then Utf(5, b - 0xFC)
    else Utf(0, 0)
  }

  // `ch & 0x3F` of the last byte completes the character; code points beyond the
  // basic plane turn into the replacement character.
  function EndUtf(bits: nat): CodeUnit {
    if bits > 0xFFFF then 0xFFFD else bits
  }

  /** One byte through the UTF-8 decoder. */
  function Decode(u: Utf, ch: CodeUnit): (r: (Utf, Glyph))
    requires UtfOk(u)
    ensures UtfOk(r.0)
  {
    if ch <= 0x7F then (u.(count := 0), Glyph(ch))
    else if u.count > 0 && Continues(ch) then
      var bits := u.ch * 64 + ch % 64;
      (Utf(u.count - 1, bits), if u.count == 1 then Glyph(EndUtf(bits)) else Nothing)
    else
      var start := StartUtf(ch);
      (if start.count > 0 then start else u.(count := 0), Nothing)
  }

  const CTRL_ACTION: set<nat> := {0, 7, 8, 9, 10, 11, 12, 13, 14, 15, 24, 26, 27}
  const CTRL_ALWAYS: set<nat> := {0, 8, 10, 12, 13, 14, 15, 27}

  predicate IsNormal(m: Modes, ch: CodeUnit) {
    && (32 <= ch <= 127 || ch >= 160 || (m.utf && ch >= 128)
        || ch % 32 !in (if m.dispCtrl then CTRL_ALWAYS else CTRL_ACTION))
    && (ch != 0x7F || m.dispCtrl)
  }

  // Before a character is drawn: the wrap that the last one left due, and in
  // insert mode room for it.
  function Prepared(c: Config, t: Term): (r: Term)
    requires Sound(c, t)
    ensures Sound(c, r)
  {
    var t1 := if t.needWrap then Lf(c, Cr(c, t), 1) else t;
    if t.modes.insert then ScrollIn(c, t1, t1.x, t1.y, c.width - t1.x - 1, 1, 1, 0) else t1
  }

  function DrawHere(c: Config, t: Term, ch: CodeUnit): (r: Term)
    requires Sound(c, t)
    ensures Sound(c, r)
  {
    t.(page := t.page.Put(t.x, t.y, [MakeCell(ch, t.pen.color, t.pen.style)]),
       x := Min(t.x + 1, c.width - 1),
       needWrap := if t.x + 1 >= c.width then t.modes.autoWrap else t.needWrap,
       last := ch)
  }

  /** Draws one character at the cursor. */
  function Draw(c: Config, t: Term, ch: CodeUnit): (r: Term)
    requires Sound(c, t)
    ensures Sound(c, r)
  {
    if t.modes.printing then t.(last := ch) else DrawHere(c, Prepared(c, t), ch)
  }

  /** One decoded character. */
  function Act(c: Config, t: Term, ch: CodeUnit): (r: (Term, seq<CodeUnit>))
    requires Sound(c, t)
    ensures Sound(c, r.0)
  {
    if IsNormal(t.modes, ch) && t.parser.esc == Normal then
      var glyph := ToGlyph(if ch < 256 then c.Lookup(t.sets.translate, ToggleMeta(t, ch)) else ch);
      if glyph.Nothing? then (t, []) else (Draw(c, t, glyph.ch), [])
    else Control(c, t, ch)
  }

  /** One character of input. */
  function Feed(c: Config, t: Term, ch: CodeUnit): (r: (Term, seq<CodeUnit>))
    requires Sound(c, t)
    ensures Sound(c, r.0)
  {
    if t.modes.utf then
      var (utf, glyph) := Decode(t.utf, ch);
      if glyph.Nothing? then (t.(utf := utf), []) else Act(c, t.(utf := utf), glyph.ch)
    else Act(c, t, ch)
  }

  /** One character of input, and the text that it stands for, if any.  The text
      of an expansion is not expanded again: see FeedRepeats. */
  function Step(c: Config, t: Term, ch: CodeUnit, nested: bool): (r: Term)
    requires Sound(c, t)
    ensures Sound(c, r)
    decreases !nested, 0, 1
  {
    var (t1, expansion) := Feed(c, t, ch);
    if expansion == [] || nested then t1 else Process(c, t1, expansion, true)
  }

  /** The state after a whole string of input, one character after the other. */
  function Process(c: Config, t: Term, s: seq<CodeUnit>, nested: bool): (r: Term)
    requires Sound(c, t)
    ensures Sound(c, r)
    decreases !nested, |s|, 0
  {
    if s == [] then t else Step(c, Process(c, t, s[..|s| - 1], nested), s[|s| - 1], nested)
  }

  // What a decoded character makes the terminal send back ...
  function Reacts(t: Term, ch: CodeUnit): seq<Answer> {
    if IsNormal(t.modes, ch) && t.parser.esc == Normal then [] else Answers(t, ch)
  }

  /** ... and what a character of input does. */
  function Reply(t: Term, ch: CodeUnit): seq<Answer>
    requires UtfOk(t.utf)
  {
    if t.modes.utf then
      var (utf, glyph) := Decode(t.utf, ch);
      if glyph.Nothing? then [] else Reacts(t.(utf := utf), glyph.ch)
    else Reacts(t, ch)
  }

  function StepReplies(c: Config, t: Term, ch: CodeUnit, nested: bool): seq<Answer>
    requires Sound(c, t)
    decreases !nested, 0, 1
  {
    var (t1, expansion) := Feed(c, t, ch);
    Reply(t, ch) + if expansion == [] || nested then [] else Replies(c, t1, expansion, true)
  }

  /** What a whole string of input makes the terminal send back. */
  function Replies(c: Config, t: Term, s: seq<CodeUnit>, nested: bool): seq<Answer>
    requires Sound(c, t)
    decreases !nested, |s|, 0
  {
    if s == [] then []
    else
      Replies(c, t, s[..|s| - 1], nested) + StepReplies(c, Process(c, t, s[..|s| - 1], nested), s[|s| - 1], nested)
  }

  // ---- Text that is not drawn yet ----

  // What of `buf` fits between column x and the right border: all but its last
  // character is cut off there.
  function Fitting(buf: seq<CodeUnit>, room: nat): (r: seq<CodeUnit>)
    requires room > 0
    ensures |r| == if |buf| > room then room else |buf|
  {
    if |buf| > room then buf[..room - 1] + [buf[|buf| - 1]] else buf
  }

  /** The state once `buf` is drawn at the cursor in one go. */
  function Drawn(c: Config, t: Term, buf: seq<CodeUnit>): (r: Term)
    requires Sound(c, t)
    ensures Sound(c, r)
  {
    if t.modes.printing then t
    else
      t.(page := t.page.Put(t.x, t.y, TextCells(Fitting(buf, c.width - t.x), t.pen.color, t.pen.style)),
         x := Min(t.x + |buf|, c.width - 1))
  }
}
