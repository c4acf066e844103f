/** What the operations on the grid mean for the rows of the screen, seen as plain
    lists of cells. */
module ScreenFacts {
  import opened Rows
  import opened Cells
  import opened Grid
  import opened TermSpec

  // `row` with the cells from column `x` on replaced.
  function Replaced(row: Row, x: nat, cells: Row): (r: Row)
    requires x + |cells| <= |row|
    ensures |r| == |row|
  {
    row[..x] + cells + row[x + |cells|..]
  }

  lemma SpliceReplaces(row: Row, x: nat, cells: Row)
    requires x + |cells| <= |row|
    ensures Splice(row, x, cells) == Replaced(row, x, cells)
  {
    SpliceAt(row, x, cells);
  }

  lemma ColumnsSlice(row: Row, x: nat, w: nat)
    requires x + w <= |row|
    ensures Columns(row, x, w) == row[x..x + w]
  {
    ColumnsAt(row, x, w);
  }

  /** Text written at (x, y) changes exactly the cells [x, x + n) of row y. */
  lemma PutExactly(g: Grid, x: nat, y: nat, cells: Row, width: nat, height: nat)
    requires g.Fits(width, height) && y < height && x + |cells| <= width
    ensures g.Put(x, y, cells) == g.(rows := g.rows[y := Replaced(g.rows[y], x, cells)])
    ensures g.Put(x, y, cells).Fits(width, height)
  {
    SpliceReplaces(g.rows[y], x, cells);
  }

  // ---- Part of one line ----

  // n cells inserted at column x; the last n drop off the row.
  function Inserted(row: Row, x: nat, n: nat, cell: Cell): (r: Row)
    requires x + n <= |row|
    ensures |r| == |row|
  {
    row[..x] + Fill(n, cell) + row[x..|row| - n]
  }

  // n cells deleted at column x; n new ones follow at the end.
  function Deleted(row: Row, x: nat, n: nat, cell: Cell): (r: Row)
    requires x + n <= |row|
    ensures |r| == |row|
  {
    row[..x] + row[x + n..] + Fill(n, cell)
  }

  lemma MoveRightInserts(row: Row, x: nat, n: nat, cell: Cell)
    requires x + n <= |row|
    ensures Splice(Splice(row, x + n, Columns(row, x, |row| - x - n)), x, Fill(n, cell)) == Inserted(row, x, n, cell)
  {
    var w := |row| - x - n;
    ColumnsSlice(row, x, w);
    SpliceReplaces(row, x + n, row[x..x + w]);
    var moved := Replaced(row, x + n, row[x..x + w]);
    SpliceReplaces(moved, x, Fill(n, cell));
    assert moved[..x] == row[..x] && moved[x + n..] == row[x..x + w];
  }

  lemma MoveLeftDeletes(row: Row, x: nat, n: nat, cell: Cell)
    requires x + n <= |row|
    ensures var w := |row| - x - n;
      Splice(Splice(row, x, Columns(row, x + n, w)), x + w, Fill(n, cell)) == Deleted(row, x, n, cell)
  {
    var w := |row| - x - n;
    ColumnsSlice(row, x + n, w);
    SpliceReplaces(row, x, row[x + n..x + n + w]);
    var moved := Replaced(row, x, row[x + n..x + n + w]);
    SpliceReplaces(moved, x + w, Fill(n, cell));
    assert moved[..x + w] == row[..x] + row[x + n..] && moved[x + w + n..] == [];
  }

  // A strip of one row moved sideways, and the gap filled.
  lemma MoveInRow(rows: seq<Row>, x: nat, y: nat, w: nat, inc: int, gap: int, n: nat, cell: Cell)
    requires y < |rows| && 0 <= x + inc
    ensures FillRect(MoveRect(rows, x, y, w, 1, inc, 0), gap, y, n, 1, cell)
            == rows[y := Splice(Splice(rows[y], x + inc, Columns(rows[y], x, w)), gap, Fill(n, cell))]
  {
    MoveRectAt(rows, x, y, w, 1, inc, 0);
    FillRectAt(MoveRect(rows, x, y, w, 1, inc, 0), gap, y, n, 1, cell);
  }

  /** Moving the rest of a line to the right by less than its length inserts
      blanks; what is pushed over the border is lost. */
  lemma ScrollRight(g: Grid, alternate: bool, width: nat, height: nat, x: nat, y: nat, n: nat, cell: Cell)
    requires g.Fits(width, height) && y < height && 0 < n && x + n < width
    ensures Scroll(g, alternate, width, height, x, y, width - x - n, 1, n, 0, cell)
            == g.(rows := g.rows[y := Inserted(g.rows[y], x, n, cell)])
  {
    MoveInRow(g.rows, x, y, width - x - n, n, x, n, cell);
    MoveRightInserts(g.rows[y], x, n, cell);
  }

  lemma ScrollLeft(g: Grid, alternate: bool, width: nat, height: nat, x: nat, y: nat, n: nat, cell: Cell)
    requires g.Fits(width, height) && y < height && 0 < n && x + n < width
    ensures Scroll(g, alternate, width, height, x + n, y, width - x - n, 1, 0 - n, 0, cell)
            == g.(rows := g.rows[y := Deleted(g.rows[y], x, n, cell)])
  {
    hide MoveRect, FillRect, Deleted, Splice, Columns;
    var left: int := 0 - n;
    MoveInRow(g.rows, x + n, y, width - x - n, left, width - n, n, cell);
    MoveLeftDeletes(g.rows[y], x, n, cell);
  }

  // A strip of no width does not move.
  lemma ScrollNothing(g: Grid, alternate: bool, width: nat, height: nat, x: nat, y: nat, incX: int, cell: Cell)
    requires |g.rows| == height
    ensures Scroll(g, alternate, width, height, x, y, 0, 1, incX, 0, cell) == g
  {
  }

  /** CSI @ is list insertion on the cursor's row, as long as some of the row is
      left to move; at the full remaining width it changes nothing. */
  lemma InsertCharsInserts(c: Config, t: Term, count: nat)
    requires Sound(c, t) && t.page.Fits(c.width, c.height)
    ensures var n := AtMost(count, c.width - t.x);
      InsertChars(c, t, count).page
      == if t.x + n < c.width
         then t.page.(rows := t.page.rows[t.y := Inserted(t.page.rows[t.y], t.x, n, MakeCell(SPACE, t.pen.color, Plain))])
         else t.page
  {
    hide Scroll, Inserted;
    var n := AtMost(count, c.width - t.x);
    var cell := MakeCell(SPACE, t.pen.color, Plain);
    if t.x + n < c.width {
      ScrollRight(t.page, t.alternate, c.width, c.height, t.x, t.y, n, cell);
    } else {
      ScrollNothing(t.page, t.alternate, c.width, c.height, t.x, t.y, n, cell);
    }
  }

  /** CSI P is list deletion on the cursor's row, under the same condition. */
  lemma DeleteCharsDeletes(c: Config, t: Term, count: nat)
    requires Sound(c, t) && t.page.Fits(c.width, c.height)
    ensures var n := AtMost(count, c.width - t.x);
      DeleteChars(c, t, count).page
      == if t.x + n < c.width
         then t.page.(rows := t.page.rows[t.y := Deleted(t.page.rows[t.y], t.x, n, MakeCell(SPACE, t.pen.color, Plain))])
         else t.page
  {
    hide Scroll, Deleted;
    var n := AtMost(count, c.width - t.x);
    var cell := MakeCell(SPACE, t.pen.color, Plain);
    if t.x + n < c.width {
      ScrollLeft(t.page, t.alternate, c.width, c.height, t.x, t.y, n, cell);
    } else {
      ScrollNothing(t.page, t.alternate, c.width, c.height, t.x + n, t.y, 0 - n, cell);
    }
  }

  // ---- Whole lines ----

  // n blank rows inserted at row y of the region that ends at `bottom`.
  function RowsInserted(rows: seq<Row>, y: nat, bottom: nat, n: nat, blank: Row): (r: seq<Row>)
    requires y + n <= bottom <= |rows|
    ensures |r| == |rows|
  {
    rows[..y] + Fill(n, blank) + rows[y..bottom - n] + rows[bottom..]
  }

  function RowsDeleted(rows: seq<Row>, y: nat, bottom: nat, n: nat, blank: Row): (r: seq<Row>)
    requires y + n <= bottom <= |rows|
    ensures |r| == |rows|
  {
    rows[..y] + rows[y + n..bottom] + Fill(n, blank) + rows[bottom..]
  }

  lemma ShiftDownInserts(rows: seq<Row>, y: nat, bottom: nat, n: nat, blank: Row)
    requires y + n <= bottom <= |rows|
    ensures Rows.Shift(rows, y, bottom - y - n, n, blank) == RowsInserted(rows, y, bottom, n, blank)
  {
    ShiftAt(rows, y, bottom - y - n, n, blank);
  }

  lemma ShiftUpDeletes(rows: seq<Row>, y: nat, bottom: nat, n: nat, blank: Row)
    requires y + n <= bottom <= |rows|
    ensures Rows.Shift(rows, y + n, bottom - y - n, 0 - n, blank) == RowsDeleted(rows, y, bottom, n, blank)
  {
    ShiftAt(rows, y + n, bottom - y - n, 0 - n, blank);
  }

  lemma ScrollDown(g: Grid, alternate: bool, width: nat, height: nat, y: nat, bottom: nat, n: nat, cell: Cell)
    requires |g.rows| == height && 0 < width && 0 < n && y + n <= bottom <= height
    ensures Scroll(g, alternate, width, height, 0, y, width, bottom - y - n, 0, n, cell)
            == g.(rows := RowsInserted(g.rows, y, bottom, n, BlankRow(width)))
  {
    ShiftDownInserts(g.rows, y, bottom, n, BlankRow(width));
  }

  // The rows that leave the top of the normal screen are kept.
  function Kept(g: Grid, alternate: bool, height: nat, y: nat, bottom: nat, n: nat): seq<Row>
    requires n <= |g.rows|
  {
    if !alternate && y == 0 && bottom == height then Last(g.back + g.rows[..n], MAX_SCROLLBACK) else g.back
  }

  lemma ScrollsUp(g: Grid, alternate: bool, width: nat, height: nat, y: nat, bottom: nat, n: nat, cell: Cell)
    requires |g.rows| == height && 0 < width && 0 < n && y + n <= bottom <= height
    ensures Scroll(g, alternate, width, height, 0, y + n, width, bottom - y - n, 0, 0 - n, cell)
            == Grid(Kept(g, alternate, height, y, bottom, n), RowsDeleted(g.rows, y, bottom, n, BlankRow(width)))
  {
    ShiftUpDeletes(g.rows, y, bottom, n, BlankRow(width));
    if !alternate && y == 0 && bottom == height {
      assert RowsDeleted(g.rows, y, bottom, n, BlankRow(width)) == g.rows[n..] + Fill(n, BlankRow(width));
    }
  }

  /** CSI L is list insertion of blank rows within the scroll region. */
  lemma InsertLinesInserts(c: Config, t: Term, count: nat)
    requires Sound(c, t)
    ensures InsertLines(c, t, count).page
      == if t.y >= t.bottom then t.page
         else t.page.(rows := RowsInserted(t.page.rows, t.y, t.bottom, AtMost(count, t.bottom - t.y), BlankRow(c.width)))
  {
    hide Scroll, RowsInserted;
    if t.y < t.bottom {
      ScrollDown(t.page, t.alternate, c.width, c.height, t.y, t.bottom, AtMost(count, t.bottom - t.y),
                 MakeCell(SPACE, t.pen.color, Plain));
    }
  }

  /** CSI M is list deletion within the scroll region; rows deleted at the top of
      the whole normal screen join the history. */
  lemma DeleteLinesDeletes(c: Config, t: Term, count: nat)
    requires Sound(c, t)
    ensures var n := AtMost(count, t.bottom - t.y);
      DeleteLines(c, t, count).page
      == if t.y >= t.bottom then t.page
         else Grid(Kept(t.page, t.alternate, c.height, t.y, t.bottom, n),
                   RowsDeleted(t.page.rows, t.y, t.bottom, n, BlankRow(c.width)))
  {
    hide Scroll, RowsDeleted, Kept;
    if t.y < t.bottom {
      ScrollsUp(t.page, t.alternate, c.width, c.height, t.y, t.bottom, AtMost(count, t.bottom - t.y),
                MakeCell(SPACE, t.pen.color, Plain));
    }
  }

  /** A line feed at the bottom of the scroll region deletes its top row, and a
      reverse line feed at its top opens a row there. */
  lemma FeedsScroll(c: Config, t: Term)
    requires Sound(c, t)
    ensures t.y == t.bottom - 1 ==>
      LineFeed(c, t) == t.(page := Grid(Kept(t.page, t.alternate, c.height, t.top, t.bottom, 1),
                                        RowsDeleted(t.page.rows, t.top, t.bottom, 1, BlankRow(c.width))))
    ensures t.y == t.top ==>
      ReverseFeed(c, t) == t.(page := t.page.(rows := RowsInserted(t.page.rows, t.top, t.bottom, 1, BlankRow(c.width))))
  {
    hide Scroll, RowsDeleted, RowsInserted, Kept;
    var cell := MakeCell(SPACE, t.pen.color, Plain);
    ScrollsUp(t.page, t.alternate, c.width, c.height, t.top, t.bottom, 1, cell);
    ScrollDown(t.page, t.alternate, c.width, c.height, t.top, t.bottom, 1, cell);
  }

  lemma LastTwice(a: seq<Row>, b: seq<Row>, n: nat)
    ensures Last(Last(a, n) + b, n) == Last(a + b, n)
  {
  }

  // All that can be seen of the normal screen: the history and the screen.
  function Text(g: Grid): seq<Row> {
    g.back + g.rows
  }

  lemma ScrolledText(g: Grid, blank: Row, height: nat)
    requires |g.rows| == height && height > 0
    ensures Text(Grid(Last(g.back + g.rows[..1], MAX_SCROLLBACK), RowsDeleted(g.rows, 0, height, 1, blank)))
            == Last(Text(g) + [blank], MAX_SCROLLBACK + height)
  {
    assert RowsDeleted(g.rows, 0, height, 1, blank) == g.rows[1..] + [blank];
    hide RowsDeleted;
    var text := g.back + g.rows + [blank];
    var above := g.back + g.rows[..1];
    assert text == above + (g.rows[1..] + [blank]);
    LastAndRest(above, g.rows[1..] + [blank], MAX_SCROLLBACK);
  }

  // What is kept of a list is kept of its longer form.
  lemma LastAndRest(a: seq<Row>, b: seq<Row>, n: nat)
    ensures Last(a, n) + b == Last(a + b, n + |b|)
  {
    if |a| > n {
      assert (a + b)[|a| - n..] == a[|a| - n..] + b;
    }
  }

  lemma NoMoreText(g: Grid, blank: Row, height: nat)
    requires |g.back| <= MAX_SCROLLBACK && |g.rows| == height
    ensures Last(Text(g) + Fill(0, blank), MAX_SCROLLBACK + height) == Text(g)
  {
  }

  lemma MoreBlanks(text: seq<Row>, n: nat, blank: Row)
    requires n > 0
    ensures text + Fill(n, blank) == text + [blank] + Fill(n - 1, blank)
  {
  }

  /** Any number of line feeds at the bottom of the normal screen: the history and
      the screen together stay a window on one growing text, of which only the
      newest 500 rows above the screen are kept. */
  lemma {:induction false} HistoryKept(c: Config, t: Term, n: nat)
    requires Sound(c, t) && !t.alternate && t.top == 0 && t.bottom == c.height && t.y == c.height - 1
    requires |t.page.back| <= MAX_SCROLLBACK
    ensures var t1 := Lf(c, t, n);
      && Text(t1.page) == Last(Text(t.page) + Fill(n, BlankRow(c.width)), MAX_SCROLLBACK + c.height)
      && t1 == t.(page := t1.page)
    decreases n
  {
    hide LineFeed, RowsDeleted, Last, Text, Fill;
    var blank := BlankRow(c.width);
    if n == 0 {
      NoMoreText(t.page, blank, c.height);
    } else {
      FeedsScroll(c, t);
      ScrolledText(t.page, blank, c.height);
      HistoryKept(c, LineFeed(c, t), n - 1);
      LastTwice(Text(t.page) + [blank], Fill(n - 1, blank), MAX_SCROLLBACK + c.height);
      MoreBlanks(Text(t.page), n, blank);
    }
  }

  // ---- Erasing ----

  /** A cleared rectangle inside the screen, row by row. */
  lemma ClearsRows(g: Grid, width: nat, height: nat, x: nat, y: nat, w: nat, h: nat, cell: Cell)
    requires g.Fits(width, height) && x + w <= width && y + h <= height && w > 0 && h > 0
    ensures var r := Clear(g, width, height, x, y, w, h, cell);
      && r.back == g.back && |r.rows| == height
      && forall i :: 0 <= i < height ==>
           r.rows[i] == if y <= i < y + h then Replaced(g.rows[i], x, Fill(w, cell)) else g.rows[i]
  {
    FillRectAt(g.rows, x, y, w, h, cell);
    forall i | y <= i < y + h
      ensures Splice(g.rows[i], x, Fill(w, cell)) == Replaced(g.rows[i], x, Fill(w, cell))
    {
      SpliceReplaces(g.rows[i], x, Fill(w, cell));
    }
  }

  lemma ClearsOneRow(g: Grid, width: nat, height: nat, x: nat, y: nat, w: nat, cell: Cell)
    requires g.Fits(width, height) && x + w <= width && y < height && w > 0
    ensures Clear(g, width, height, x, y, w, 1, cell)
            == g.(rows := g.rows[y := Replaced(g.rows[y], x, Fill(w, cell))])
  {
    ClearsRows(g, width, height, x, y, w, 1, cell);
  }

  /** CSI K erases the cursor's row from the cursor on, up to it, or as a whole. */
  lemma EraseLineErases(c: Config, t: Term, how: nat)
    requires Sound(c, t) && t.page.Fits(c.width, c.height) && how <= 2
    ensures var row, blank := t.page.rows[t.y], TermSpec.Blank(t);
      EraseLine(c, t, how).page
      == t.page.(rows := t.page.rows[t.y :=
           if how == 0 then row[..t.x] + Fill(c.width - t.x, blank)
           else if how == 1 then Fill(t.x + 1, blank) + row[t.x + 1..]
           else Fill(c.width, blank)])
  {
    hide Clear, Fill, Replaced;
    var x, w := if how == 0 then t.x else 0, if how == 0 then c.width - t.x else if how == 1 then t.x + 1 else c.width;
    ClearsOneRow(t.page, c.width, c.height, x, t.y, w, TermSpec.Blank(t));
    EdgeReplaced(t.page.rows[t.y], x, Fill(w, TermSpec.Blank(t)));
  }

  lemma EdgeReplaced(row: Row, x: nat, cells: Row)
    requires x + |cells| <= |row|
    ensures x == 0 ==> Replaced(row, x, cells) == cells + row[|cells|..]
    ensures x + |cells| == |row| ==> Replaced(row, x, cells) == row[..x] + cells
    ensures x == 0 && |cells| == |row| ==> Replaced(row, x, cells) == cells
  {
  }

  /** CSI J erases from the cursor to the end of the screen, unless the cursor is on
      the last row but one: then the last row stays as it is. */
  lemma EraseDisplayErases(c: Config, t: Term)
    requires Sound(c, t) && t.page.Fits(c.width, c.height)
    ensures var rows := EraseDisplay(c, t, 0).page.rows;
      && |rows| == c.height && rows[..t.y] == t.page.rows[..t.y]
      && rows[t.y] == t.page.rows[t.y][..t.x] + Fill(c.width - t.x, TermSpec.Blank(t))
      && ((forall i :: t.y < i < c.height ==> rows[i] == Fill(c.width, TermSpec.Blank(t)))
          <==> t.y != c.height - 2 || t.page.rows[c.height - 1] == Fill(c.width, TermSpec.Blank(t)))
  {
    hide Clear, Fill, Replaced;
    var blank := TermSpec.Blank(t);
    var t1 := ClearIn(c, t, t.x, t.y, c.width - t.x, 1);
    ClearsOneRow(t.page, c.width, c.height, t.x, t.y, c.width - t.x, blank);
    EdgeReplaced(t.page.rows[t.y], t.x, Fill(c.width - t.x, blank));
    if t.y < c.height - 2 {
      ClearsRows(t1.page, c.width, c.height, 0, t.y + 1, c.width, c.height - t.y - 1, blank);
      forall i | t.y < i < c.height
        ensures Replaced(t1.page.rows[i], 0, Fill(c.width, blank)) == Fill(c.width, blank)
      {
        EdgeReplaced(t1.page.rows[i], 0, Fill(c.width, blank));
      }
    } else if t.y == c.height - 2 {
      assert t1.page.rows[c.height - 1] == t.page.rows[c.height - 1];
    }
  }

  // ---- Tab stops ----

  /** The next tab stop is the first one after the column, or there is none. */
  lemma {:induction false} NextTabIsFirst(tabs: map<int, bool>, x: int, width: nat)
    requires x < width
    ensures var r := NextTab(tabs, x, width);
      && x < r <= width + 1 && (r <= width ==> IsTab(tabs, r)) && forall i :: x < i < r ==> !IsTab(tabs, i)
    decreases width - x
  {
    if !IsTab(tabs, x + 1) && x + 1 < width {
      NextTabIsFirst(tabs, x + 1, width);
    }
  }

  lemma {:induction false} PreviousTabIsLast(tabs: map<int, bool>, x: int)
    requires x > 0
    ensures var r := PreviousTab(tabs, x);
      && -1 <= r < x && (r >= 0 ==> IsTab(tabs, r)) && forall i :: r < i < x ==> !IsTab(tabs, i)
    decreases x
  {
    if !IsTab(tabs, x - 1) && x - 1 > 0 {
      PreviousTabIsLast(tabs, x - 1);
    }
  }
}
