/** Plain text typed anywhere on the screen: it fills row after row, and scrolls only
    when no row is left. */
module FillingFacts {
  import opened Rows
  import opened Cells
  import opened Grid
  import opened TermSpec
  import opened TermFacts
  import opened ScreenFacts
  import opened SequenceFacts
  import opened TypingFacts
  import opened MotionFacts
  import opened ColourFacts

  // A row with a text written over it from column `x` on.
  function Over(row: Row, x: nat, s: seq<CodeUnit>, cls: Class, style: Style): (r: Row)
    requires x + |s| <= |row|
    ensures |r| == |row|
  {
    row[..x] + Styled(s, cls, style) + row[x + |s|..]
  }

  /** `rows` with a text written over them from column `x` of row `y` on, going on at the
      start of the next row where a row is full. */
  function Written(rows: seq<Row>, x: nat, y: nat, s: seq<CodeUnit>, width: nat, cls: Class, style: Style): (r: seq<Row>)
    requires x < width && y < |rows| && x + |s| <= (|rows| - y) * width
    requires forall i :: 0 <= i < |rows| ==> |rows[i]| == width
    ensures |r| == |rows| && forall i :: 0 <= i < |r| ==> |r[i]| == width
    decreases |rows| - y
  {
    var n := width - x;
    if |s| <= n then rows[y := Over(rows[y], x, s, cls, style)]
    else
      NextRowFits(x, |s|, |rows| - y, width);
      Written(rows[y := Over(rows[y], x, s[..n], cls, style)], 0, y + 1, s[n..], width, cls, style)
  }

  lemma NextRowFits(x: nat, n: nat, rows: int, width: nat)
    requires width < x + n <= rows * width
    ensures rows > 1 && n - (width - x) <= (rows - 1) * width
  {
  }

  lemma Scales(a: int, b: int, width: nat)
    requires a <= b
    ensures a * width <= b * width
  {
  }

  // How far column `k` of row `r` is behind column `x` of row `y`.
  function Distance(x: nat, y: nat, k: nat, r: nat, width: nat): int {
    (r - y) * width + k - x
  }

  lemma Distances(x: nat, y: nat, k: nat, r: nat, width: nat)
    requires k < width && x < width
    ensures r < y ==> Distance(x, y, k, r, width) < 0
    ensures r == y ==> Distance(x, y, k, r, width) == k - x
    ensures r > y ==> Distance(x, y, k, r, width) >= width - x
    ensures Distance(0, y + 1, k, r, width) == Distance(x, y, k, r, width) - (width - x)
  {
    if r < y {
      Scales(r - y, -1, width);
    } else if r > y {
      Scales(1, r - y, width);
    }
    Shorter(r - y, width);
  }

  lemma Shorter(a: int, width: nat)
    ensures (a - 1) * width == a * width - width
  {
  }

  /** Where each character is, position by position: those before the text and behind it
      stay as they were. */
  lemma {:induction false} WrittenAt(rows: seq<Row>, x: nat, y: nat, s: seq<CodeUnit>, width: nat, cls: Class, style: Style,
                                     r: nat, k: nat)
    requires x < width && y < |rows| && x + |s| <= (|rows| - y) * width && r < |rows| && k < width
    requires forall i :: 0 <= i < |rows| ==> |rows[i]| == width
    ensures var d := Distance(x, y, k, r, width);
      Written(rows, x, y, s, width, cls, style)[r][k] == if 0 <= d < |s| then Cell(s[d], cls, style) else rows[r][k]
    decreases |rows| - y
  {
    hide Over, Distance, Written;
    var n := width - x;
    Distances(x, y, k, r, width);
    if |s| > n {
      OverAt(rows[y], x, s[..n], cls, style, k);
      WrittenNext(rows, x, y, s, width, cls, style);
      WrittenAt(rows[y := Over(rows[y], x, s[..n], cls, style)], 0, y + 1, s[n..], width, cls, style, r, k);
    } else {
      OverAt(rows[y], x, s, cls, style, k);
      WrittenHere(rows, x, y, s, width, cls, style);
    }
  }

  lemma OverAt(row: Row, x: nat, s: seq<CodeUnit>, cls: Class, style: Style, k: nat)
    requires x + |s| <= |row| && k < |row|
    ensures Over(row, x, s, cls, style)[k] == if x <= k < x + |s| then Cell(s[k - x], cls, style) else row[k]
  {
  }

  // The row behind the last one that text fills before something scrolls.
  function Limit(c: Config, t: Term): int {
    if t.y < t.bottom then t.bottom else c.height
  }

  // Text can be typed at the cursor and goes on to the next row.
  ghost predicate Filling(c: Config, t: Term) {
    && Sound(c, t) && t.page.Fits(c.width, c.height)
    && Writing(t) && t.modes.autoWrap && !t.needWrap
    && (t.modes.offset ==> t.top <= t.y < t.bottom)
  }

  // The state that typing leads to but for what it draws and where it ends.
  predicate SameSettings(t: Term, u: Term) {
    u == t.(page := u.page, x := u.x, y := u.y, needWrap := u.needWrap, utf := u.utf, last := u.last)
  }

  // The wrap at the end of a row that is not the last one.
  lemma WrapsDown(c: Config, u: Term)
    requires Sound(c, u) && Writing(u) && u.needWrap && (u.modes.offset ==> u.top <= u.y < u.bottom)
    requires u.y + 1 < Limit(c, u)
    ensures Prepared(c, u) == u.(x := 0, y := u.y + 1, needWrap := false)
  {
    hide LineFeed, Kept, RowsDeleted;
    FeedOnce(c, Cr(c, u));
  }

  // The number of positions before the cursor, counting the last one of a full row.
  function Position(c: Config, t: Term): int {
    t.y * c.width + t.x + if t.needWrap then 1 else 0
  }

  lemma NextPosition(c: Config, t: Term, u: Term)
    requires !t.needWrap && !u.needWrap && u.x == 0 && u.y == t.y + 1
    ensures Position(c, u) == Position(c, t) + c.width - t.x
  {
  }

  lemma RowFilled(c: Config, t: Term, s: seq<CodeUnit>, nested: bool)
    requires Filling(c, t) && AllTypeable(c, t.sets, t.modes, s) && t.x + |s| <= c.width
    ensures var u := Process(c, t, s, nested);
      && Sound(c, u) && SameSettings(t, u) && u.y == t.y
      && u.x + (if u.needWrap then 1 else 0) == t.x + |s| && Position(c, u) == Position(c, t) + |s|
      && u.page == t.page.(rows := t.page.rows[t.y := Over(t.page.rows[t.y], t.x, s, t.pen.color, t.pen.style)])
  {
    hide Process, Splice, Typeable;
    TypeOnRow(c, t, s, nested);
    if s == [] {
      assert Over(t.page.rows[t.y], t.x, s, t.pen.color, t.pen.style) == t.page.rows[t.y];
    } else {
      TypedShows(c, t, s, nested);
    }
  }

  lemma RoomLeft(c: Config, t: Term, n: nat)
    requires 0 <= t.x < c.width && c.width < t.x + n <= (Limit(c, t) - t.y) * c.width
    ensures t.y + 1 < Limit(c, t) && n - (c.width - t.x) <= (Limit(c, t) - t.y - 1) * c.width
  {
    NextRowFits(t.x, n, Limit(c, t) - t.y, c.width);
  }

  // The state once a row is typed and left.
  function RowDone(c: Config, t: Term, s: seq<CodeUnit>, nested: bool): (u: Term)
    requires Sound(c, t)
    ensures Sound(c, u)
  {
    hide Sound, Process, Prepared;
    Prepared(c, Process(c, t, s, nested))
  }

  // A text that fills the cursor's row: what follows starts on the next one.
  lemma RowAndRest(c: Config, t: Term, s: seq<CodeUnit>, rest: seq<CodeUnit>, nested: bool)
    requires Filling(c, t) && AllTypeable(c, t.sets, t.modes, s + rest)
    requires t.x + |s| == c.width && rest != [] && t.y + 1 < Limit(c, t)
    ensures var u := RowDone(c, t, s, nested);
      && Process(c, t, s + rest, nested) == Process(c, u, rest, nested)
      && Filling(c, u) && SameSettings(t, u) && u.x == 0 && u.y == t.y + 1 && Limit(c, u) == Limit(c, t)
      && u.page == t.page.(rows := t.page.rows[t.y := Over(t.page.rows[t.y], t.x, s, t.pen.color, t.pen.style)])
  {
    hide Process, Replies, Typeable, Prepared, Over;
    assert Typeable(c, t.sets, t.modes, (s + rest)[|s|]);
    assert forall i :: 0 <= i < |s| ==> (s + rest)[i] == s[i];
    ProcessConcat(c, t, s, rest, nested);
    RowFilled(c, t, s, nested);
    var u := Process(c, t, s, nested);
    WrapFirst(c, u, rest, nested);
    WrapsDown(c, u);
  }

  lemma WrittenNext(rows: seq<Row>, x: nat, y: nat, s: seq<CodeUnit>, width: nat, cls: Class, style: Style)
    requires x < width < x + |s| <= (|rows| - y) * width && y < |rows|
    requires forall i :: 0 <= i < |rows| ==> |rows[i]| == width
    ensures y + 1 < |rows| && |s[width - x..]| <= (|rows| - y - 1) * width
    ensures var n := width - x;
      Written(rows, x, y, s, width, cls, style)
      == Written(rows[y := Over(rows[y], x, s[..n], cls, style)], 0, y + 1, s[n..], width, cls, style)
  {
    NextRowFits(x, |s|, |rows| - y, width);
  }

  /** Text typed at any position of the screen, in any region, is on the rows from there
      on, one after the other, as long as there are rows; all else, the history included,
      stays, and the cursor is behind the text. */
  lemma {:induction false} TypingFills(c: Config, t: Term, s: seq<CodeUnit>, nested: bool)
    requires Filling(c, t) && AllTypeable(c, t.sets, t.modes, s) && t.x + |s| <= (Limit(c, t) - t.y) * c.width
    ensures t.x + |s| <= (|t.page.rows| - t.y) * c.width
    ensures var r := Process(c, t, s, nested);
      && SameSettings(t, r) && Sound(c, r) && Position(c, r) == Position(c, t) + |s|
      && r.page == t.page.(rows := Written(t.page.rows, t.x, t.y, s, c.width, t.pen.color, t.pen.style))
    decreases |s|
  {
    hide Process, Typeable, RowDone, Over, Written, Position;
    LimitFits(c, t, |s|);
    if t.x + |s| <= c.width {
      RowFilled(c, t, s, nested);
      WrittenHere(t.page.rows, t.x, t.y, s, c.width, t.pen.color, t.pen.style);
    } else {
      var n := c.width - t.x;
      RoomLeft(c, t, |s|);
      assert s == s[..n] + s[n..];
      RowAndRest(c, t, s[..n], s[n..], nested);
      NextPosition(c, t, RowDone(c, t, s[..n], nested));
      TypingFills(c, RowDone(c, t, s[..n], nested), s[n..], nested);
      WrittenNext(t.page.rows, t.x, t.y, s, c.width, t.pen.color, t.pen.style);
    }
  }

  lemma WrittenHere(rows: seq<Row>, x: nat, y: nat, s: seq<CodeUnit>, width: nat, cls: Class, style: Style)
    requires x < width && x + |s| <= width && y < |rows| && x + |s| <= (|rows| - y) * width
    requires forall i :: 0 <= i < |rows| ==> |rows[i]| == width
    ensures Written(rows, x, y, s, width, cls, style) == rows[y := Over(rows[y], x, s, cls, style)]
  {
  }

  lemma LimitFits(c: Config, t: Term, n: nat)
    requires Sound(c, t) && t.x + n <= (Limit(c, t) - t.y) * c.width
    ensures t.x + n <= (c.height - t.y) * c.width
  {
  }

  // Behind the last position of the screen is the end of its last row.
  lemma LastPosition(c: Config, u: Term)
    requires Sound(c, u) && Position(c, u) == c.height * c.width
    ensures u.y == c.height - 1 && u.x == c.width - 1 && u.needWrap
  {
    if u.y < c.height - 1 {
      Scales(u.y + 1, c.height - 1, c.width);
    }
  }

  lemma FilledUp(c: Config, t: Term, s: seq<CodeUnit>, nested: bool)
    requires Filling(c, t) && AllTypeable(c, t.sets, t.modes, s)
    requires t.bottom == c.height && t.x + |s| == (c.height - t.y) * c.width
    ensures var u := Process(c, t, s, nested);
      && SameSettings(t, u) && Sound(c, u) && u.page.Fits(c.width, c.height)
      && u.y == c.height - 1 && u.needWrap
      && u.page == t.page.(rows := Written(t.page.rows, t.x, t.y, s, c.width, t.pen.color, t.pen.style))
  {
    hide Process, Typeable, Written;
    TypingFills(c, t, s, nested);
    LastPosition(c, Process(c, t, s, nested));
  }

  /** On the whole normal screen a text of any length goes on below: the rows that are
      full scroll up in order, and nothing is lost before it is 500 rows above. */
  lemma TypingScrolls(c: Config, t: Term, s: seq<CodeUnit>, more: seq<CodeUnit>, nested: bool)
    requires Filling(c, t) && !t.alternate && t.top == 0 && t.bottom == c.height
    requires AllTypeable(c, t.sets, t.modes, s) && AllTypeable(c, t.sets, t.modes, more) && more != []
    requires t.x + |s| == (c.height - t.y) * c.width
    ensures Text(Process(c, t, s + more, nested).page)
            == Last(t.page.back + Written(t.page.rows, t.x, t.y, s, c.width, t.pen.color, t.pen.style)
                    + Chunks(more, c.width, t.pen), MAX_SCROLLBACK + c.height)
  {
    hide Process, Replies, Typeable, Prepared, Written, Chunks, Last;
    ProcessConcat(c, t, s, more, nested);
    FilledUp(c, t, s, nested);
    var u := Process(c, t, s, nested);
    WrapFirst(c, u, more, nested);
    NextRow(c, u);
    TypingAppends(c, Prepared(c, u), more, nested);
    LastAbove(Text(u.page), BlankRow(c.width), Chunks(more, c.width, t.pen), MAX_SCROLLBACK + c.height);
  }

  // ---- Without wrapping ----

  lemma CutOff(s: seq<CodeUnit>, room: nat)
    requires |s| > room > 0
    ensures Fitting(s, room) == s[..room - 1] + [s[|s| - 1]]
  {
  }

  /** When wrapping is off, the cursor stays at the end of the row, and each character
      that finds no room replaces the last one. */
  lemma TypingStays(c: Config, t: Term, s: seq<CodeUnit>, nested: bool)
    requires Sound(c, t) && t.page.Fits(c.width, c.height) && Writing(t) && !t.modes.autoWrap && !t.needWrap
    requires AllTypeable(c, t.sets, t.modes, s) && t.x + |s| > c.width
    ensures var r, n := Process(c, t, s, nested), c.width - t.x;
      && SameSettings(t, r) && r.x == c.width - 1 && r.y == t.y && !r.needWrap
      && r.page == t.page.(rows := t.page.rows[t.y :=
                     Over(t.page.rows[t.y], t.x, s[..n - 1] + [s[|s| - 1]], t.pen.color, t.pen.style)])
  {
    hide Process, Splice, Typeable, Fitting;
    TypeOnRow(c, t, s, nested);
    CutOff(s, c.width - t.x);
    var kept := s[..c.width - t.x - 1] + [s[|s| - 1]];
    assert AllTypeable(c, t.sets, t.modes, kept);
    TypedCells(c, kept, t.sets, t.modes, t.pen);
    PutExactly(t.page, t.x, t.y, Styled(kept, t.pen.color, t.pen.style), c.width, c.height);
  }

  // ---- Other characters ----

  // Characters that take no room.
  predicate Invisible(ch: CodeUnit) {
    ch == 0xFEFF || 0x200A <= ch <= 0x200F
  }

  // Characters of a private area stand for positions of the font.
  function Shape(ch: CodeUnit): CodeUnit {
    if ch / 256 % 256 == 0xF0 then ch % 256 else ch
  }

  /** A character beyond the tables of the character sets is shown as it is, unless it
      takes no room, and a non-breaking space as a space. */
  lemma CharacterShows(c: Config, t: Term, ch: CodeUnit, nested: bool)
    requires Sound(c, t) && t.page.Fits(c.width, c.height) && Writing(t) && !t.needWrap && !t.modes.utf && ch >= 256
    ensures Invisible(ch) ==> Process(c, t, [ch], nested) == t
    ensures !Invisible(ch) ==>
      var row, shown := t.page.rows[t.y], if Shape(ch) == NBSP then SPACE else Shape(ch);
      Process(c, t, [ch], nested).page
      == t.page.(rows := t.page.rows[t.y := row[..t.x] + [Cell(shown, t.pen.color, t.pen.style)] + row[t.x + 1..]])
  {
    hide Step, Process, Splice;
    ProcessOne(c, t, ch, nested);
    CharacterDraws(c, t, ch, nested);
    PutExactly(t.page, t.x, t.y, [MakeCell(Shape(ch), t.pen.color, t.pen.style)], c.width, c.height);
  }

  lemma CharacterDraws(c: Config, t: Term, ch: CodeUnit, nested: bool)
    requires Sound(c, t) && Writing(t) && !t.modes.utf && ch >= 256
    ensures Step(c, t, ch, nested) == if Invisible(ch) then t else Draw(c, t, Shape(ch))
  {
    hide Draw;
  }
}
