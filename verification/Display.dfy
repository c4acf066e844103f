/** The terminal's two pages of lines, edited in place, and their cursor: the
    screen-drawing half of VT100. */
module Display {
  import opened Cells
  import opened Grid
  import opened Rows
  import LineEdit

  // The line that VT100.insertBlankLine creates.
  function NewLine(color: Class, style: Style, width: nat): Line {
    if color != DEFAULT_CLASS && style == Plain then Blank else Runs([Run(Spaces(width), NoClass, style)])
  }

  predicate LineOk(line: Line, width: nat) {
    (line.Runs? ==> line.runs != []) && LineLength(line) <= width
  }

  ghost predicate LinesOk(lines: seq<Line>, width: nat) {
    forall line :: line in lines ==> LineOk(line, width)
  }

  lemma OkAt(lines: seq<Line>, width: nat)
    ensures LinesOk(lines, width) <==> forall i :: 0 <= i < |lines| ==> LineOk(lines[i], width)
  {
  }

  lemma NewLineView(color: Class, width: nat)
    ensures View(NewLine(color, Plain, width), width) == BlankRow(width)
    ensures LineOk(NewLine(color, Plain, width), width)
  {
    var run := Run(Spaces(width), NoClass, Plain);
    LineEdit.FlattenOne(run);
    FlattenLength([run]);
    ViewIsPad(NewLine(color, Plain, width), width);
  }

  lemma BlankView(width: nat)
    ensures View(Blank, width) == BlankRow(width)
  {
    ViewIsPad(Blank, width);
  }

  // What each line of the page shows.
  ghost function Views(lines: seq<Line>, width: nat): (rows: seq<Row>)
    ensures |rows| == |lines|
  {
    if lines == [] then [] else Views(lines[..|lines| - 1], width) + [View(lines[|lines| - 1], width)]
  }

  lemma {:induction false} ViewsAt(lines: seq<Line>, width: nat)
    ensures var rows := Views(lines, width);
      forall i :: 0 <= i < |lines| ==> rows[i] == View(lines[i], width)
  {
    if lines != [] {
      ViewsAt(lines[..|lines| - 1], width);
      assert forall i :: 0 <= i < |lines| - 1 ==> lines[i] == lines[..|lines| - 1][i];
    }
  }

  /** The picture that a page stands for; `n` lines are scrolled off the top. */
  ghost function Picture(lines: seq<Line>, n: nat, width: nat, height: nat): (g: Grid)
    ensures |g.back| == n && |g.rows| == height
  {
    var rows, blank := Views(lines, width), BlankRow(width);
    Grid(Window(rows, 0, n, blank), Window(rows, n, height, blank))
  }

  lemma ViewsInsert(lines: seq<Line>, q: nat, line: Line, width: nat)
    ensures Views(Insert(lines, q, line), width) == Insert(Views(lines, width), q, View(line, width))
  {
    ViewsAt(lines, width);
    ViewsAt(Insert(lines, q, line), width);
    hide Views, View;
    var a, b := Views(Insert(lines, q, line), width), Insert(Views(lines, width), q, View(line, width));
    assert |a| == |b| && forall i :: 0 <= i < |a| ==> a[i] == b[i];
  }

  lemma ViewsRemove(lines: seq<Line>, p: nat, width: nat)
    ensures Views(Remove(lines, p), width) == Remove(Views(lines, width), p)
  {
    ViewsAt(lines, width);
    ViewsAt(Remove(lines, p), width);
    hide Views, View;
    var a, b := Views(Remove(lines, p), width), Remove(Views(lines, width), p);
    assert |a| == |b| && forall i :: 0 <= i < |a| ==> a[i] == b[i];
  }

  lemma {:induction false} ViewsWith(lines: seq<Line>, q: nat, n: nat, line: Line, width: nat)
    ensures Views(With(lines, q, n, line), width) == With(Views(lines, width), q, n, View(line, width))
  {
    hide Views, View, Insert;
    if n > 0 {
      ViewsWith(lines, q, n - 1, line, width);
      ViewsInsert(With(lines, q, n - 1, line), q, line, width);
    }
  }

  lemma {:induction false} ViewsWithout(lines: seq<Line>, p: nat, n: nat, width: nat)
    ensures Views(Without(lines, p, n), width) == Without(Views(lines, width), p, n)
  {
    hide Views, View, Remove;
    if n > 0 {
      ViewsWithout(lines, p, n - 1, width);
      ViewsRemove(Without(lines, p, n - 1), p, width);
    }
  }

  lemma {:induction false} OkWith(lines: seq<Line>, q: nat, n: nat, line: Line, width: nat)
    requires LinesOk(lines, width) && LineOk(line, width)
    ensures LinesOk(With(lines, q, n, line), width)
  {
    if n > 0 {
      OkWith(lines, q, n - 1, line, width);
      OkAt(With(lines, q, n - 1, line), width);
      OkAt(With(lines, q, n, line), width);
    }
  }

  lemma {:induction false} OkWithout(lines: seq<Line>, p: nat, n: nat, width: nat)
    requires LinesOk(lines, width)
    ensures LinesOk(Without(lines, p, n), width)
  {
    if n > 0 {
      OkWithout(lines, p, n - 1, width);
      OkAt(Without(lines, p, n - 1), width);
      OkAt(Without(lines, p, n), width);
    }
  }

  lemma OkReplace(lines: seq<Line>, i: nat, line: Line, width: nat)
    requires LinesOk(lines, width) && i < |lines|
    ensures LineOk(lines[i], width)
    ensures LineOk(line, width) ==> LinesOk(lines[i := line], width)
  {
    OkAt(lines, width);
    OkAt(lines[i := line], width);
  }

  lemma OkDrop(lines: seq<Line>, i: nat, width: nat)
    requires LinesOk(lines, width) && i <= |lines|
    ensures LinesOk(lines[i..], width)
  {
    OkAt(lines, width);
    OkAt(lines[i..], width);
  }

  lemma PictureRow(lines: seq<Line>, n: nat, i: nat, width: nat, height: nat)
    requires i < height
    ensures Picture(lines, n, width, height).rows[i] == RowAt(lines, n + i, width)
  {
    ViewsAt(lines, width);
    WindowAt(Views(lines, width), n, height, i, BlankRow(width));
  }

  lemma PictureBack(lines: seq<Line>, n: nat, i: nat, width: nat, height: nat)
    requires i < n
    ensures Picture(lines, n, width, height).back[i] == RowAt(lines, i, width)
  {
    ViewsAt(lines, width);
    WindowAt(Views(lines, width), 0, n, i, BlankRow(width));
  }

  lemma PictureAt(lines: seq<Line>, n: nat, width: nat, height: nat)
    ensures var g := Picture(lines, n, width, height);
      && (forall i :: 0 <= i < n ==> g.back[i] == RowAt(lines, i, width))
      && (forall i :: 0 <= i < height ==> g.rows[i] == RowAt(lines, n + i, width))
  {
    var g := Picture(lines, n, width, height);
    hide Picture, RowAt;
    forall i | 0 <= i < n
      ensures g.back[i] == RowAt(lines, i, width)
    {
      PictureBack(lines, n, i, width, height);
    }
    forall i | 0 <= i < height
      ensures g.rows[i] == RowAt(lines, n + i, width)
    {
      PictureRow(lines, n, i, width, height);
    }
  }

  lemma PictureFits(lines: seq<Line>, n: nat, width: nat, height: nat)
    requires n <= MAX_SCROLLBACK
    ensures Picture(lines, n, width, height).Fits(width, height)
  {
    PictureAt(lines, n, width, height);
  }

  lemma PutPicture(lines: seq<Line>, yIdx: nat, edited: Line, n: nat, x: nat, cells: Row, width: nat, height: nat)
    requires n <= yIdx < |lines| && yIdx - n < height
    requires View(edited, width) == Splice(View(lines[yIdx], width), x, cells)
    ensures Picture(lines[yIdx := edited], n, width, height) == Picture(lines, n, width, height).Put(x, yIdx - n, cells)
  {
    var a, b := Picture(lines[yIdx := edited], n, width, height), Picture(lines, n, width, height);
    PictureAt(lines, n, width, height);
    PictureAt(lines[yIdx := edited], n, width, height);
    assert a.back == b.back;
    assert a.rows == b.rows[yIdx - n := Splice(b.rows[yIdx - n], x, cells)];
  }

  // Pages that show the same rows stand for the same picture.
  lemma SamePicture(a: seq<Line>, b: seq<Line>, n: nat, width: nat, height: nat)
    requires Opened(Views(a, width), Views(b, width), |a|, 0, BlankRow(width))
    ensures Picture(a, n, width, height) == Picture(b, n, width, height)
  {
    var x, y, blank := Views(a, width), Views(b, width), BlankRow(width);
    Windows(x, 0, n, blank);
    Windows(y, 0, n, blank);
    Windows(x, n, height, blank);
    Windows(y, n, height, blank);
    assert Window(y, 0, n, blank) == Window(x, 0, n, blank);
    assert Window(y, n, height, blank) == Window(x, n, height, blank);
  }

  // Blank lines added at the end of a page do not show.
  lemma MoreBlankLines(lines: seq<Line>, n: nat, more: nat, line: Line, width: nat, height: nat)
    requires View(line, width) == BlankRow(width)
    ensures Picture(With(lines, |lines|, more, line), n, width, height) == Picture(lines, n, width, height)
  {
    var rows, blank := Views(lines, width), BlankRow(width);
    ViewsWith(lines, |lines|, more, line, width);
    WithOpens(rows, |lines|, more, blank);
    SamePicture(lines, With(lines, |lines|, more, line), n, width, height);
  }

  // Deleting the lines above the region and opening blank ones below it, if the
  // page reaches down that far.
  lemma LinesUp(lines: seq<Line>, rest: seq<Line>, after: seq<Line>, n: nat, y: nat, h: nat, inc: nat,
                width: nat, height: nat)
    requires inc <= y && y + h <= height
    requires Closed(Views(lines, width), Views(rest, width), n + y - inc, inc, BlankRow(width))
    requires Opened(Views(rest, width), Views(after, width), n + y + h - inc, inc, BlankRow(width))
    ensures var g := Picture(lines, n, width, height);
      Picture(after, n, width, height) == g.(rows := Shift(g.rows, y, h, 0 - inc, BlankRow(width)))
  {
    ShiftUp(Views(lines, width), Views(rest, width), Views(after, width), n, y, h, inc, BlankRow(width), height);
  }

  lemma OpenedBelow(rest: seq<Line>, after: seq<Line>, q: nat, inc: nat, line: Line, width: nat)
    requires View(line, width) == BlankRow(width) && after == With(rest, q, inc, line)
    ensures Opened(Views(rest, width), Views(after, width), q, inc, BlankRow(width))
  {
    ViewsWith(rest, q, inc, line, width);
    WithOpens(Views(rest, width), q, inc, BlankRow(width));
  }

  // Deleting the lines below the region and opening blank ones above it.
  lemma LinesDown(lines: seq<Line>, rest: seq<Line>, after: seq<Line>, n: nat, y: nat, h: nat, inc: nat,
                  width: nat, height: nat)
    requires y + h + inc <= height
    requires Closed(Views(lines, width), Views(rest, width), n + y + h, inc, BlankRow(width))
    requires Opened(Views(rest, width), Views(after, width), n + y, inc, BlankRow(width))
    ensures var g := Picture(lines, n, width, height);
      Picture(after, n, width, height) == g.(rows := Shift(g.rows, y, h, inc, BlankRow(width)))
  {
    ShiftDown(Views(lines, width), Views(rest, width), Views(after, width), n, y, h, inc, BlankRow(width), height);
  }

  lemma ClosedAbove(lines: seq<Line>, rest: seq<Line>, p: nat, inc: nat, width: nat)
    requires rest == Without(lines, p, inc)
    ensures Closed(Views(lines, width), Views(rest, width), p, inc, BlankRow(width))
  {
    ViewsWithout(lines, p, inc, width);
    WithoutCloses(Views(lines, width), p, inc, BlankRow(width));
  }

  lemma LinesScrolledUp(lines: seq<Line>, longer: seq<Line>, n: nat, inc: nat, line: Line, drop: nat,
                        width: nat, height: nat)
    requires View(line, width) == BlankRow(width) && |lines| == n + height && inc <= height
    requires longer == With(lines, |lines|, inc, line)
    requires drop == if n + inc > MAX_SCROLLBACK then n + inc - MAX_SCROLLBACK else 0
    ensures Picture(longer[drop..], n + inc - drop, width, height)
            == ScrollUp(Picture(lines, n, width, height), BlankRow(width), inc)
  {
    var rows, blank := Views(lines, width), BlankRow(width);
    ViewsWith(lines, |lines|, inc, line, width);
    WithOpens(rows, |lines|, inc, blank);
    ViewsDrop(longer, drop, width);
    ScrolledUpBack(rows, Views(longer, width), n, inc, MAX_SCROLLBACK, drop, blank, height);
    ScrolledUpRows(rows, Views(longer, width), n, inc, drop, blank, height);
  }

  // The whole of a scroll within the page, up or down.
  lemma ScrollLinesOk(lines: seq<Line>, rest: seq<Line>, after: seq<Line>, p: nat, q: nat, n: nat, line: Line,
                      width: nat)
    requires LinesOk(lines, width) && LineOk(line, width)
    requires rest == Without(lines, p, n) && (after == With(rest, q, n, line) || after == rest)
    ensures LinesOk(after, width)
  {
    OkWithout(lines, p, n, width);
    OkWith(rest, q, n, line, width);
  }

  lemma ViewsDrop(lines: seq<Line>, drop: nat, width: nat)
    requires drop <= |lines|
    ensures Views(lines[drop..], width) == Views(lines, width)[drop..]
  {
    ViewsAt(lines, width);
    ViewsAt(lines[drop..], width);
  }

  lemma MoveNextUp(g: Grid, x: nat, y: nat, w: nat, h: nat, incX: int, incY: int)
    requires 0 <= y + incY && y + h < |g.rows| && incY <= 0
    ensures var done := g.(rows := MoveRect(g.rows, x, y, w, h, incX, incY));
      done.Put(x + incX, y + h + incY, Columns(done.rows[y + h], x, w))
      == g.(rows := MoveRect(g.rows, x, y, w, h + 1, incX, incY))
  {
    MoveRectAt(g.rows, x, y, w, h, incX, incY);
    MoveRectAt(g.rows, x, y, w, h + 1, incX, incY);
  }

  lemma MoveNextDown(g: Grid, x: nat, y: nat, w: nat, h: nat, incX: int, incY: int)
    requires y >= 1 && y + h + incY <= |g.rows| && incY > 0
    ensures var done := g.(rows := MoveRect(g.rows, x, y, w, h, incX, incY));
      done.Put(x + incX, y - 1 + incY, Columns(done.rows[y - 1], x, w))
      == g.(rows := MoveRect(g.rows, x, y - 1, w, h + 1, incX, incY))
  {
    MoveRectAt(g.rows, x, y, w, h, incX, incY);
    MoveRectAt(g.rows, x, y - 1, w, h + 1, incX, incY);
  }

  lemma MoveNothing(rows: seq<Row>, x: nat, y: nat, w: nat, incX: int, incY: int)
    ensures MoveRect(rows, x, y, w, 0, incX, incY) == rows
  {
    MoveRectAt(rows, x, y, w, 0, incX, incY);
  }

  lemma FillNothing(rows: seq<Row>, x: int, y: int, w: nat, cell: Cell)
    ensures FillRect(rows, x, y, w, 0, cell) == rows
  {
    FillRectAt(rows, x, y, w, 0, cell);
  }

  lemma ClearIsFill(g: Grid, width: nat, height: nat, x: nat, y: nat, w: nat, h: nat, cell: Cell)
    requires w > 0 && x + w <= width && y + h <= height
    ensures Clear(g, width, height, x, y, w, h, cell) == g.(rows := FillRect(g.rows, x, y, w, h, cell))
  {
    if h == 0 {
      FillNothing(g.rows, x, y, w, cell);
    }
  }

  // The part of `cells` that falls into columns [x, x+w).
  function Taken(cells: Row, x: nat, w: nat): Row {
    if |cells| <= x then [] else if |cells| <= x + w then cells[x..] else cells[x..x + w]
  }

  lemma TakeMore(seen: Row, next: Row, x: nat, w: nat)
    requires |seen| < x + w
    ensures var o := if x > |seen| then x - |seen| else 0;
      var left := if |seen| <= x then w else w - (|seen| - x);
      Taken(seen + next, x, w) ==
        if |seen| + |next| <= x then [] 
        else Taken(seen, x, w) + next[o..if o + left <= |next| then o + left else |next|]
  {
  }

  lemma TakeAll(seen: Row, rest: Row, x: nat, w: nat)
    requires |seen| >= x + w || rest == []
    ensures Taken(seen + rest, x, w) == Taken(seen, x, w)
  {
  }

  lemma TakenView(cells: Row, x: nat, w: nat, width: nat)
    requires x + w <= width
    ensures Columns(Pad(cells, width), x, w) == Pad(Taken(cells, x, w), w)
  {
    ColumnsAt(Pad(cells, width), x, w);
  }

  // The part of one run, which starts at column `x`, that falls into the segment.
  method TakePiece(seen: seq<Run>, run: Run, x: nat, sX: nat, w: nat, left: int) returns (piece: Run)
    requires x == |Flatten(seen)| && 0 < left && x + |run.text| > sX
    requires left == if x <= sX then w else w - (x - sX)
    ensures Taken(Flatten(seen), sX, w) + TextCells(piece.text, piece.cls, piece.style)
            == Taken(Flatten(seen) + TextCells(run.text, run.cls, run.style), sX, w)
  {
    TakeMore(Flatten(seen), TextCells(run.text, run.cls, run.style), sX, w);
    var o := if sX > x then sX - x else 0;
    var end := if o + left <= |run.text| then o + left else |run.text|;
    piece := run.(text := run.text[o..end]);
    LineEdit.TextCellsSlice(run.text, run.cls, run.style, o, end);
  }

  lemma AppendRun(runs: seq<Run>, run: Run)
    ensures Flatten(runs + [run]) == Flatten(runs) + TextCells(run.text, run.cls, run.style)
  {
    FlattenConcat(runs, [run]);
    LineEdit.FlattenOne(run);
  }

  /** Columns [sX, sX+w) of a line's runs as runs of their own, with blanks
      where the line ends early. */
  method TakeRuns(runs: seq<Run>, sX: nat, w: nat) returns (pieces: seq<Run>)
    requires w > 0
    ensures Flatten(pieces) == Pad(Taken(Flatten(runs), sX, w), w)
  {
    var x, i := 0, 0;
    var left: int := w;
    pieces := [];
    while i < |runs| && left > 0
      invariant 0 <= i <= |runs| && x == |Flatten(runs[..i])|
      invariant left == if x <= sX then w else w - (x - sX)
      invariant Flatten(pieces) == Taken(Flatten(runs[..i]), sX, w)
    {
      var run := runs[i];
      FlattenNext(runs, i);
      if x + |run.text| > sX {
        var piece := TakePiece(runs[..i], run, x, sX, w, left);
        AppendRun(pieces, piece);
        pieces := pieces + [piece];
        left := left - (|run.text| - if sX > x then sX - x else 0);
      }
      x := x + |run.text|;
      i := i + 1;
    }
    assert Taken(Flatten(runs[..i]), sX, w) == Taken(Flatten(runs), sX, w) by {
      assert runs == runs[..i] + runs[i..];
      FlattenConcat(runs[..i], runs[i..]);
      TakeAll(Flatten(runs[..i]), Flatten(runs[i..]), sX, w);
    }
    ghost var taken := Flatten(pieces);
    if left > 0 {
      var blank := Run(Spaces(left), NoClass, Plain);
      AppendRun(pieces, blank);
      pieces := pieces + [blank];
      assert runs[..i] == runs;
      PadWith(taken, TextCells(blank.text, NoClass, Plain), w);
    } else {
      PadWith(taken, [], w);
    }
  }

  lemma PadWith(cells: Row, blanks: Row, width: nat)
    requires |cells| + |blanks| == width && forall i :: 0 <= i < |blanks| ==> blanks[i] == BLANK_CELL
    ensures Pad(cells, width) == cells + blanks
  {
  }

  lemma FlattenNext(runs: seq<Run>, i: nat)
    requires i < |runs|
    ensures Flatten(runs[..i + 1]) == Flatten(runs[..i]) + TextCells(runs[i].text, runs[i].cls, runs[i].style)
    ensures |Flatten(runs[..i + 1])| <= |Flatten(runs)|
  {
    assert runs[..i + 1] == runs[..i] + [runs[i]];
    FlattenConcat(runs[..i], [runs[i]]);
    LineEdit.FlattenOne(runs[i]);
    assert runs == runs[..i + 1] + runs[i + 1..];
    FlattenConcat(runs[..i + 1], runs[i + 1..]);
  }

  // What the page shows on line `i`; lines that do not exist show as blank.
  ghost function RowAt(lines: seq<Line>, i: nat, width: nat): Row {
    if i < |lines| then View(lines[i], width) else BlankRow(width)
  }

  // The number of lines of a page that are scrolled off its top.
  function Scrolled(count: nat, height: nat): nat {
    if count > height then count - height else 0
  }

  /** `lines` are sound lines of a page that shows the picture `g`. */
  ghost predicate Linked(lines: seq<Line>, g: Grid, limit: nat, width: nat, height: nat) {
    && LinesOk(lines, width) && |lines| <= height + limit
    && g == Picture(lines, Scrolled(|lines|, height), width, height)
  }

  lemma LinkedUp(lines: seq<Line>, rest: seq<Line>, after: seq<Line>, g: Grid, limit: nat, y: nat, h: nat, inc: nat,
                 line: Line, width: nat, height: nat)
    requires Linked(lines, g, limit, width, height)
    requires View(line, width) == BlankRow(width) && LineOk(line, width) && inc <= y && y + h <= height
    requires var n := Scrolled(|lines|, height);
      && rest == Without(lines, n + y - inc, inc) && after == With(rest, n + y + h - inc, inc, line)
      && (n > 0 || |rest| > n + y + h - inc)
    ensures Linked(after, g.(rows := Shift(g.rows, y, h, 0 - inc, BlankRow(width))), limit, width, height)
  {
    hide View, Views, Picture, Shift, LineOk;
    var n := Scrolled(|lines|, height);
    OkWithout(lines, n + y - inc, inc, width);
    OkWith(rest, n + y + h - inc, inc, line, width);
    ClosedAbove(lines, rest, n + y - inc, inc, width);
    OpenedBelow(rest, after, n + y + h - inc, inc, line, width);
    LinesUp(lines, rest, after, n, y, h, inc, width, height);
  }

  // A page that does not reach below the region needs no new lines.
  lemma LinkedUpShort(lines: seq<Line>, rest: seq<Line>, g: Grid, limit: nat, y: nat, h: nat, inc: nat,
                      width: nat, height: nat)
    requires Linked(lines, g, limit, width, height) && inc <= y && y + h <= height
    requires |lines| <= height && rest == Without(lines, y - inc, inc) && |rest| <= y + h - inc
    ensures Linked(rest, g.(rows := Shift(g.rows, y, h, 0 - inc, BlankRow(width))), limit, width, height)
  {
    hide View, Views, Picture, Shift, LineOk;
    OkWithout(lines, y - inc, inc, width);
    ClosedAbove(lines, rest, y - inc, inc, width);
    OpensPastEnd(Views(rest, width), y + h - inc, inc, BlankRow(width));
    LinesUp(lines, rest, rest, 0, y, h, inc, width, height);
  }

  lemma LinkedDown(lines: seq<Line>, rest: seq<Line>, after: seq<Line>, g: Grid, limit: nat, y: nat, h: nat, inc: nat,
                   line: Line, width: nat, height: nat)
    requires Linked(lines, g, limit, width, height)
    requires View(line, width) == BlankRow(width) && LineOk(line, width) && y + h + inc <= height
    requires var n := Scrolled(|lines|, height);
      rest == Without(lines, n + y + h, inc) && after == With(rest, n + y, inc, line)
    ensures Linked(after, g.(rows := Shift(g.rows, y, h, inc, BlankRow(width))), limit, width, height)
    ensures Scrolled(|after|, height) == Scrolled(|lines|, height)
  {
    hide View, Views, Picture, Shift, LineOk;
    var n := Scrolled(|lines|, height);
    ClosedAbove(lines, rest, n + y + h, inc, width);
    OpenedBelow(rest, after, n + y, inc, line, width);
    LinesDown(lines, rest, after, n, y, h, inc, width, height);
    ScrollLinesOk(lines, rest, after, n + y + h, n + y, inc, line, width);
  }

  lemma LinkedScrolledUp(lines: seq<Line>, longer: seq<Line>, g: Grid, inc: nat, drop: nat, line: Line,
                         width: nat, height: nat)
    requires Linked(lines, g, MAX_SCROLLBACK, width, height) && |lines| >= height && inc <= height
    requires View(line, width) == BlankRow(width) && LineOk(line, width)
    requires longer == With(lines, |lines|, inc, line)
    requires var n := |lines| - height + inc; drop == if n > MAX_SCROLLBACK then n - MAX_SCROLLBACK else 0
    ensures Linked(longer[drop..], ScrollUp(g, BlankRow(width), inc), MAX_SCROLLBACK, width, height)
  {
    hide View, Views, Picture, ScrollUp, LineOk, LinesOk;
    OkWith(lines, |lines|, inc, line, width);
    OkDrop(longer, drop, width);
    LinesScrolledUp(lines, longer, |lines| - height, inc, line, drop, width, height);
  }

  lemma LinkedGrow(lines: seq<Line>, g: Grid, limit: nat, more: nat, line: Line, width: nat, height: nat)
    requires Linked(lines, g, limit, width, height)
    requires View(line, width) == BlankRow(width) && LineOk(line, width)
    requires more == 0 || |lines| + more <= height
    ensures Linked(With(lines, |lines|, more, line), g, limit, width, height)
  {
    OkWith(lines, |lines|, more, line, width);
    MoreBlankLines(lines, Scrolled(|lines|, height), more, line, width, height);
  }

  lemma LinkedPut(lines: seq<Line>, g: Grid, limit: nat, x: nat, y: nat, edited: Line, cells: Row,
                  width: nat, height: nat)
    requires Linked(lines, g, limit, width, height) && LineOk(edited, width) && y < height
    requires var i := Scrolled(|lines|, height) + y;
      i < |lines| && View(edited, width) == Splice(View(lines[i], width), x, cells)
    ensures Linked(lines[Scrolled(|lines|, height) + y := edited], g.Put(x, y, cells), limit, width, height)
  {
    var n := Scrolled(|lines|, height);
    OkReplace(lines, n + y, edited, width);
    PutPicture(lines, n + y, edited, n, x, cells, width, height);
  }

  lemma LinkedRow(lines: seq<Line>, g: Grid, limit: nat, i: nat, width: nat, height: nat)
    requires Linked(lines, g, limit, width, height) && i < height
    ensures i < |g.rows| && g.rows[i] == RowAt(lines, Scrolled(|lines|, height) + i, width)
    ensures Scrolled(|lines|, height) + i < |lines| ==> LineOk(lines[Scrolled(|lines|, height) + i], width)
  {
    PictureRow(lines, Scrolled(|lines|, height), i, width, height);
  }

  lemma LinkedEmpty(lines: seq<Line>, g: Grid, limit: nat, width: nat, height: nat)
    requires Linked(lines, g, limit, width, height) && |g.back| == 0
    ensures Linked([], g.(rows := FillRect(g.rows, 0, 0, width, height, BLANK_CELL)), limit, width, height)
  {
    BlankPage(lines, width, height);
  }

  // The two pages: 0 is the normal screen, 1 the alternate one.
  predicate IsPage(k: int) {
    k == 0 || k == 1
  }

  // The alternate screen never keeps a scrollback buffer.
  function Limit(page: int): nat {
    if page == 0 then MAX_SCROLLBACK else 0
  }

  // putString's edit of one line among the lines of a page.
  method EditLine(lines: seq<Line>, x: nat, y: nat, text: seq<CodeUnit>, color: Class, style: Style,
                  ghost g: Grid, ghost limit: nat, width: nat, height: nat) returns (edited: seq<Line>)
    requires Linked(lines, g, limit, width, height)
    requires text != [] && x + |text| <= width && y < height && y + Scrolled(|lines|, height) < |lines|
    ensures |edited| == |lines|
    ensures Linked(edited, g.Put(x, y, TextCells(text, color, style)), limit, width, height)
  {
    var yIdx := y + Scrolled(|lines|, height);
    assert LineOk(lines[yIdx], width) by {
      LinkedRow(lines, g, limit, y, width, height);
    }
    var line := LineEdit.PutText(lines[yIdx], x, text, color, style, width);
    LinkedPut(lines, g, limit, x, y, line, TextCells(text, color, style), width, height);
    edited := lines[yIdx := line];
  }

  /** Removes up to `n` lines at line `p` of a page. */
  method RemoveLines(lines: seq<Line>, p: nat, n: nat) returns (rest: seq<Line>)
    ensures rest == Without(lines, p, n)
  {
    rest := lines;
    var i := n;
    while i > 0 && |rest| > p
      invariant 0 <= i <= n && rest == Without(lines, p, n - i)
    {
      rest := rest[..p] + rest[p + 1..];
      i := i - 1;
    }
    if i > 0 {
      WithoutDone(lines, p, n - i, n);
    }
  }

  /** Inserts `n` blank lines before line `q` of a page. */
  method InsertBlankLines(lines: seq<Line>, q: nat, n: nat, color: Class, width: nat) returns (more: seq<Line>)
    ensures more == With(lines, q, n, NewLine(color, Plain, width))
  {
    more := lines;
    var i := 0;
    while i < n
      invariant 0 <= i <= n && more == With(lines, q, i, NewLine(color, Plain, width))
    {
      more := if |more| > q then more[..q] + [NewLine(color, Plain, width)] + more[q..]
              else more + [NewLine(color, Plain, width)];
      i := i + 1;
    }
  }

  /** Scrolls lines of a page up: lines above the region go, and blank ones come
      below it, so that the bottom of the screen does not move up. */
  method ShiftLinesUp(lines: seq<Line>, y: nat, h: nat, inc: nat, color: Class, ghost g: Grid, ghost limit: nat,
                      width: nat, height: nat) returns (after: seq<Line>)
    requires Linked(lines, g, limit, width, height) && inc <= y && y + h <= height
    ensures Linked(after, g.(rows := Shift(g.rows, y, h, 0 - inc, BlankRow(width))), limit, width, height)
    ensures Scrolled(|after|, height) == Scrolled(|lines|, height)
  {
    var n := Scrolled(|lines|, height);
    var rest := RemoveLines(lines, n + y - inc, inc);
    if n > 0 || |rest| > n + y + h - inc {
      after := InsertBlankLines(rest, n + y + h - inc, inc, color, width);
      NewLineView(color, width);
      LinkedUp(lines, rest, after, g, limit, y, h, inc, NewLine(color, Plain, width), width, height);
    } else {
      after := rest;
      LinkedUpShort(lines, rest, g, limit, y, h, inc, width, height);
    }
  }

  /** Scrolls lines of a page down: lines below the region go, and blank ones
      come above it. */
  method ShiftLinesDown(lines: seq<Line>, y: nat, h: nat, inc: nat, color: Class, ghost g: Grid, ghost limit: nat,
                        width: nat, height: nat) returns (after: seq<Line>)
    requires Linked(lines, g, limit, width, height) && y + h + inc <= height
    ensures Linked(after, g.(rows := Shift(g.rows, y, h, inc, BlankRow(width))), limit, width, height)
    ensures Scrolled(|after|, height) == Scrolled(|lines|, height)
  {
    var n := Scrolled(|lines|, height);
    var rest := RemoveLines(lines, n + y + h, inc);
    after := InsertBlankLines(rest, n + y, inc, color, width);
    NewLineView(color, width);
    LinkedDown(lines, rest, after, g, limit, y, h, inc, NewLine(color, Plain, width), width, height);
  }

  /** Appends `n` new lines to a full page, and removes the excess entries of the
      scrollback buffer. */
  method PushLines(lines: seq<Line>, n: nat, color: Class, ghost g: Grid, width: nat, height: nat)
    returns (after: seq<Line>)
    requires Linked(lines, g, MAX_SCROLLBACK, width, height) && n <= height <= |lines|
    ensures |after| >= height && |ScrollUp(g, BlankRow(width), n).back| == |after| - height
    ensures Linked(after, ScrollUp(g, BlankRow(width), n), MAX_SCROLLBACK, width, height)
  {
    var longer := InsertBlankLines(lines, |lines|, n, color, width);
    ghost var drop := if |longer| - height > MAX_SCROLLBACK then |longer| - height - MAX_SCROLLBACK else 0;
    after := DropOldest(longer, height);
    NewLineView(color, width);
    LinkedScrolledUp(lines, longer, g, n, drop, NewLine(color, Plain, width), width, height);
  }

  method DropOldest(lines: seq<Line>, height: nat) returns (rest: seq<Line>)
    requires height <= |lines|
    ensures var n := |lines| - height;
      rest == lines[if n > MAX_SCROLLBACK then n - MAX_SCROLLBACK else 0..]
  {
    rest := lines;
    var numScrollbackLines := |lines| - height;
    ghost var dropped: nat := 0;
    assert lines[0..] == lines;
    while numScrollbackLines > MAX_SCROLLBACK
      invariant dropped == |lines| - height - numScrollbackLines <= |lines| && rest == lines[dropped..]
      invariant numScrollbackLines == |lines| - height || numScrollbackLines >= MAX_SCROLLBACK
    {
      DropNext(lines, dropped);
      rest := rest[1..];
      numScrollbackLines := numScrollbackLines - 1;
      dropped := dropped + 1;
    }
  }

  lemma DropNext(lines: seq<Line>, i: nat)
    requires i < |lines|
    ensures lines[i..][1..] == lines[i + 1..]
  {
  }

  lemma ClipScrolls(g: Grid, alternate: bool, width: nat, height: nat,
                    x: int, y: int, w: int, h: int, incX: int, incY: int, blank: Cell, c: Clip)
    requires |g.rows| == height && c == ClipMove(x, y, w, h, incX, incY, width, height)
    ensures Scroll(g, alternate, width, height, x, y, w, h, incX, incY, blank)
            == if c.w <= 0 || c.h < 0 then g
               else ScrollInside(g, alternate, width, height, c.x, c.y, c.w, c.h, incX, incY, blank)
  {
    hide ScrollInside;
  }

  class Screen {
    const terminalWidth: nat
    const terminalHeight: nat
    var console: seq<seq<Line>>
    var currentScreen: int
    var numScrollbackLines: nat
    var cursorX: int
    var cursorY: int
    ghost var shown: Grid     // what the page on display shows
    ghost var hidden: Grid    // what the other page would show

    ghost predicate Valid()
      reads this
    {
      && terminalWidth >= 1 && terminalHeight >= 1
      && |console| == 2 && 0 <= currentScreen <= 1
      && |shown.rows| == |hidden.rows| == terminalHeight && numScrollbackLines == |shown.back|
      && forall k {:trigger IsPage(k)} :: IsPage(k) ==>
        Linked(console[k], if k == currentScreen then shown else hidden, Limit(k), terminalWidth, terminalHeight)
    }

    /** What every sound screen promises about its lines and what they show. */
    lemma Promises()
      requires Valid()
      ensures shown.Fits(terminalWidth, terminalHeight) && hidden.Fits(terminalWidth, terminalHeight)
      ensures numScrollbackLines == Scrolled(|console[currentScreen]|, terminalHeight)
      ensures forall k, i :: 0 <= k < 2 && 0 <= i < |console[k]| ==> LineLength(console[k][i]) <= terminalWidth
    {
      assert IsPage(currentScreen) && IsPage(1 - currentScreen);
      PictureFits(console[currentScreen], Scrolled(|console[currentScreen]|, terminalHeight), terminalWidth, terminalHeight);
      PictureFits(console[1 - currentScreen], Scrolled(|console[1 - currentScreen]|, terminalHeight), terminalWidth,
                  terminalHeight);
      OkAt(console[0], terminalWidth);
      OkAt(console[1], terminalWidth);
    }

    ghost predicate CursorOnScreen()
      reads this
    {
      0 <= cursorX < terminalWidth && 0 <= cursorY < terminalHeight
    }

    constructor (width: nat, height: nat)
      requires width >= 1 && height >= 1
      ensures Valid() && terminalWidth == width && terminalHeight == height
      ensures currentScreen == 0 && cursorX == 0 && cursorY == 0
      ensures shown == hidden == BlankGrid(width, height)
    {
      terminalWidth, terminalHeight := width, height;
      console, currentScreen, numScrollbackLines := [[], []], 0, 0;
      cursorX, cursorY := 0, 0;
      shown, hidden := BlankGrid(width, height), BlankGrid(width, height);
      EmptyPage(width, height);
    }

    // Records what the edited page on display shows now.
    ghost method Commit(g: Grid)
      requires terminalWidth >= 1 && terminalHeight >= 1 && |console| == 2 && 0 <= currentScreen <= 1
      requires Linked(console[1 - currentScreen], hidden, Limit(1 - currentScreen), terminalWidth, terminalHeight)
      requires Linked(console[currentScreen], g, Limit(currentScreen), terminalWidth, terminalHeight)
      requires |g.rows| == |hidden.rows| == terminalHeight && numScrollbackLines == |g.back|
      modifies `shown
      ensures Valid() && shown == g
    {
      shown := g;
    }

    /** Displays the other page.  The cursor keeps its column, and its row counted with
        the lines that are scrolled off; only a row more than one below the screen, or
        above it, is corrected. */
    method SwitchScreen()
      requires Valid() && CursorOnScreen()
      modifies this
      ensures Valid() && cursorX == old(cursorX)
      ensures var cy := old(cursorY + numScrollbackLines) - numScrollbackLines;
        cursorY == if cy < 0 then 0 else if cy > terminalHeight then terminalHeight - 1 else cy
      ensures currentScreen == 1 - old(currentScreen) && shown == old(hidden) && hidden == old(shown)
    {
      assert IsPage(currentScreen) && IsPage(1 - currentScreen);
      var cx, cy := cursorX, cursorY + numScrollbackLines;
      currentScreen := 1 - currentScreen;
      shown, hidden := hidden, shown;
      numScrollbackLines := if |console[currentScreen]| > terminalHeight
                            then |console[currentScreen]| - terminalHeight else 0;
      cy := cy - numScrollbackLines;
      if cy < 0 { cy := 0; } else if cy > terminalHeight { cy := terminalHeight - 1; }
      ShowCursor(cx, cy);
    }

    method InsertBlankLine(y: nat, color: Class, style: Style)
      requires |console| == 2 && 0 <= currentScreen <= 1
      modifies `console
      ensures console == old(console)[currentScreen :=
        Insert(old(console[currentScreen]), y, NewLine(color, style, terminalWidth))]
    {
      var lines := console[currentScreen];
      var line := NewLine(color, style, terminalWidth);
      if |lines| > y {
        lines := lines[..y] + [line] + lines[y..];
      } else {
        lines := lines + [line];
      }
      console := console[currentScreen := lines];
    }

    // Creates missing blank lines at the end of the page.
    method GrowTo(yIdx: nat)
      requires Valid() && yIdx < numScrollbackLines + terminalHeight
      modifies `console, `shown
      ensures Valid() && shown == old(shown) && yIdx < |console[currentScreen]|
      ensures |console[currentScreen]| >= old(|console[currentScreen]|)
    {
      assert IsPage(currentScreen) && IsPage(1 - currentScreen);
      ghost var lines, line := console[currentScreen], NewLine(DEFAULT_CLASS, Plain, terminalWidth);
      ghost var more := 0;
      while |console[currentScreen]| <= yIdx
        invariant |console| == 2 && console == old(console)[currentScreen := console[currentScreen]] && shown == old(shown)
        invariant console[currentScreen] == lines + Fill(more, line)
        invariant more == 0 || |lines| + more <= yIdx + 1
        decreases yIdx - |console[currentScreen]|
      {
        InsertBlankLine(yIdx, DEFAULT_CLASS, Plain);
        more := more + 1;
      }
      NewLineView(DEFAULT_CLASS, terminalWidth);
      WithAtEnd(lines, more, line);
      LinkedGrow(lines, shown, Limit(currentScreen), more, line,
                 terminalWidth, terminalHeight);
      Commit(shown);
    }

    // Edits an existing line of the page.
    method PutOnLine(x: nat, y: nat, text: seq<CodeUnit>, color: Class, style: Style)
      requires Valid() && text != [] && x + |text| <= terminalWidth && y < terminalHeight
      requires y + numScrollbackLines < |console[currentScreen]|
      modifies `console, `shown
      ensures Valid() && shown == old(shown).Put(x, y, TextCells(text, color, style))
    {
      assert IsPage(currentScreen) && IsPage(1 - currentScreen);
      ghost var g := shown.Put(x, y, TextCells(text, color, style));
      var lines := EditLine(console[currentScreen], x, y, text, color, style, shown, Limit(currentScreen),
                            terminalWidth, terminalHeight);
      console := console[currentScreen := lines];
      Commit(g);
    }

    /** Makes `text` appear at column x of row y, changing no other cell, and
        leaves the cursor behind it. */
    method PutString(x: nat, y: int, text: seq<CodeUnit>, color: Class, style: Style)
      requires Valid()
      requires text != [] ==> x + |text| <= terminalWidth && 0 <= y < terminalHeight
      modifies `console, `shown, `cursorX, `cursorY
      ensures Valid()
      ensures cursorX == (if x + |text| >= terminalWidth then terminalWidth - 1 else x + |text|) && cursorY == y
      ensures text == [] ==> console == old(console)
      ensures shown == old(shown).Put(x, y, TextCells(text, color, style))
    {
      if text != [] {
        var yIdx := y + numScrollbackLines;
        GrowTo(yIdx);
        PutOnLine(x, y, text, color, style);
      } else {
        PutNothing(shown, x, y, TextCells(text, color, style));
      }
      cursorX := if x + |text| >= terminalWidth then terminalWidth - 1 else x + |text|;
      cursorY := y;
    }

    // putString of no text: only the cursor moves.
    method ShowCursor(x: nat, y: int)
      requires Valid() && x < terminalWidth
      modifies `console, `shown, `cursorX, `cursorY
      ensures Valid() && shown == old(shown) && cursorX == x && cursorY == y
    {
      PutNothing(shown, x, y, TextCells([], DEFAULT_CLASS, Plain));
      PutString(x, y, [], DEFAULT_CLASS, Plain);
    }

    /** Blanks a rectangle in the given colours; the cursor stays. */
    method ClearRegion(x0: int, y0: int, w0: int, h0: int, color: Class, style: Style)
      requires Valid() && CursorOnScreen()
      modifies `console, `shown, `cursorX, `cursorY
      ensures Valid() && cursorX == old(cursorX) && cursorY == old(cursorY)
      ensures shown == Clear(old(shown), terminalWidth, terminalHeight,
                                            x0, y0, w0, h0, MakeCell(SPACE, color, style))
    {
      var x, w, y, h := x0, w0 + x0, y0, h0 + y0;
      ghost var c := ClipRect(x0, y0, w0, h0, terminalWidth, terminalHeight);
      if x < 0 { x := 0; }
      if w > terminalWidth { w := terminalWidth; }
      w := w - x;
      if w <= 0 { return; }
      if y < 0 { y := 0; }
      if h > terminalHeight { h := terminalHeight; }
      h := h - y;
      if h <= 0 { return; }
      assert c == Clip(x, y, w, h);
      ClearClipped(x, y, w, h, color, style);
    }

    method ClearClipped(x: nat, y: nat, w: nat, h: nat, color: Class, style: Style)
      requires Valid() && CursorOnScreen() && w > 0 && h > 0 && x + w <= terminalWidth && y + h <= terminalHeight
      modifies `console, `shown, `cursorX, `cursorY
      ensures Valid() && cursorX == old(cursorX) && cursorY == old(cursorY)
      ensures var g := old(shown);
        shown == g.(rows := FillRect(g.rows, x, y, w, h, MakeCell(SPACE, color, style)))
    {
      if numScrollbackLines == 0 && w == terminalWidth && h == terminalHeight &&
         color == DEFAULT_CLASS && style == Plain {
        RemoveAllLines();
        ShowCursor(cursorX, cursorY);
      } else {
        var cx, cy := cursorX, cursorY;
        PutSpaces(x, y, w, h, color, style);
        ShowCursor(cx, cy);
      }
    }

    method RemoveAllLines()
      requires Valid() && numScrollbackLines == 0
      modifies `console, `shown
      ensures Valid()
      ensures shown == old(shown.(rows := FillRect(shown.rows, 0, 0, terminalWidth, terminalHeight, BLANK_CELL)))
    {
      assert IsPage(currentScreen) && IsPage(1 - currentScreen);
      ghost var lines := console[currentScreen];
      LinkedEmpty(lines, shown, Limit(currentScreen), terminalWidth, terminalHeight);
      while |console[currentScreen]| > 0
        invariant |console| == 2 && shown == old(shown)
        invariant console == old(console)[currentScreen := console[currentScreen]]
        decreases |console[currentScreen]|
      {
        console := console[currentScreen := console[currentScreen][..|console[currentScreen]| - 1]];
      }
      Commit(shown.(rows := FillRect(shown.rows, 0, 0, terminalWidth, terminalHeight, BLANK_CELL)));
    }

    method PutSpaces(x: nat, y: nat, w: nat, h: nat, color: Class, style: Style)
      requires Valid() && w > 0 && x + w <= terminalWidth && y + h <= terminalHeight
      modifies `console, `shown, `cursorX, `cursorY
      ensures Valid()
      ensures var g := old(shown);
        shown == g.(rows := FillRect(g.rows, x, y, w, h, MakeCell(SPACE, color, style)))
    {
      ghost var cell := MakeCell(SPACE, color, style);
      ghost var before := shown;
      var s := Spaces(w);
      assert TextCells(s, color, style) == Fill(w, cell);
      var i := y + h;
      FillNothing(before.rows, x, i, w, cell);
      while i > y
        invariant y <= i <= y + h
        invariant Valid()
        invariant shown ==
          before.(rows := FillRect(before.rows, x, i, w, y + h - i, cell))
      {
        i := i - 1;
        FillNextRow(before, x, i, w, y + h - i, cell);
        PutString(x, i, s, color, style);
      }
    }

    /** The characters and colours of columns [sX, sX+w) of line sY, run by run. */
    method ReadSegment(sX: nat, sY: nat, w: nat) returns (pieces: seq<Run>)
      requires Valid() && w > 0 && sX + w <= terminalWidth
      requires numScrollbackLines <= sY < numScrollbackLines + terminalHeight
      ensures Flatten(pieces) == Columns(shown.rows[sY - numScrollbackLines], sX, w)
    {
      var lines := console[currentScreen];
      assert IsPage(currentScreen);
      LinkedRow(lines, shown, Limit(currentScreen), sY - numScrollbackLines,
                terminalWidth, terminalHeight);
      if sY >= |lines| || lines[sY].Blank? {
        pieces := [Run(Spaces(w), NoClass, Plain)];
        LineEdit.FlattenOne(pieces[0]);
        BlankView(terminalWidth);
        ColumnsAt(BlankRow(terminalWidth), sX, w);
      } else {
        pieces := TakeRuns(lines[sY].runs, sX, w);
        TakenView(Flatten(lines[sY].runs), sX, w, terminalWidth);
        ViewIsPad(lines[sY], terminalWidth);
      }
    }

    /** Copies columns [sX, sX+w) of line sY over columns [dX, dX+w) of line dY;
        everything is read before anything is written.  The cursor stays. */
    method CopyLineSegment(dX: nat, dY: nat, sX: nat, sY: nat, w: nat)
      requires Valid() && CursorOnScreen()
      requires w > 0 && sX + w <= terminalWidth && dX + w <= terminalWidth
      requires numScrollbackLines <= dY < numScrollbackLines + terminalHeight
      requires numScrollbackLines <= sY < numScrollbackLines + terminalHeight
      modifies `console, `shown, `cursorX, `cursorY
      ensures Valid() && cursorX == old(cursorX) && cursorY == old(cursorY)
      ensures numScrollbackLines == old(numScrollbackLines)
      ensures var g := old(shown);
        shown
          == g.Put(dX, dY - numScrollbackLines, Columns(g.rows[sY - numScrollbackLines], sX, w))
    {
      var pieces := ReadSegment(sX, sY, w);
      var cx, cy := cursorX, cursorY;
      ghost var g := shown;
      WritePieces(pieces, dX, dY - numScrollbackLines);
      ShowCursor(cx, cy);
    }

    method WritePieces(pieces: seq<Run>, dX0: nat, y: nat)
      requires Valid() && y < terminalHeight && dX0 + |Flatten(pieces)| <= terminalWidth
      modifies `console, `shown, `cursorX, `cursorY
      ensures Valid()
      ensures shown == old(shown).Put(dX0, y, Flatten(pieces))
    {
      ghost var g := shown;
      var dX, i := dX0, 0;
      assert pieces[..0] == [];
      PutNothing(g, dX0, y, []);
      while i < |pieces|
        invariant 0 <= i <= |pieces| && |Flatten(pieces[..i])| <= |Flatten(pieces)|
        invariant dX == dX0 + |Flatten(pieces[..i])|
        invariant Valid()
        invariant shown == g.Put(dX0, y, Flatten(pieces[..i]))
      {
        var piece := pieces[i];
        FlattenNext(pieces, i);
        var color := if piece.cls != NoClass then piece.cls else DEFAULT_CLASS;
        assert TextCells(piece.text, color, piece.style) == TextCells(piece.text, piece.cls, piece.style);
        PutTwice(g, dX0, y, Flatten(pieces[..i]), TextCells(piece.text, piece.cls, piece.style));
        PutString(dX, y, piece.text, color, piece.style);
        dX := dX + |piece.text|;
        i := i + 1;
      }
      assert pieces[..i] == pieces;
    }

    /** The whole normal screen scrolls up into the scrollback buffer. */
    method ScrollIntoScrollback(n: nat, color: Class)
      requires Valid() && currentScreen == 0 && n <= terminalHeight
      modifies `console, `shown, `numScrollbackLines
      ensures Valid() && shown == ScrollUp(old(shown), BlankRow(terminalWidth), n)
    {
      GrowTo(numScrollbackLines + terminalHeight - 1);
      AppendLines(n, color);
    }

    // Adds new lines at the bottom of a full page in order to force scrolling.
    method AppendLines(n: nat, color: Class)
      requires Valid() && currentScreen == 0 && n <= terminalHeight && |console[0]| >= terminalHeight
      modifies `console, `shown, `numScrollbackLines
      ensures Valid() && shown == ScrollUp(old(shown), BlankRow(terminalWidth), n)
    {
      assert IsPage(0) && IsPage(1);
      var lines := PushLines(console[0], n, color, shown, terminalWidth, terminalHeight);
      console := console[0 := lines];
      numScrollbackLines := |lines| - terminalHeight;
      Commit(ScrollUp(shown, BlankRow(terminalWidth), n));
    }

    /** The lines of a region move up, without reaching the scrollback buffer. */
    method ScrollLinesUp(y: nat, h: nat, n: nat, color: Class)
      requires Valid() && n <= y && y + h <= terminalHeight
      modifies `console, `shown
      ensures Valid()
      ensures shown == old(shown.(rows := Shift(shown.rows, y, h, 0 - n, BlankRow(terminalWidth))))
    {
      assert IsPage(currentScreen) && IsPage(1 - currentScreen);
      var lines := ShiftLinesUp(console[currentScreen], y, h, n, color, shown, Limit(currentScreen),
                                terminalWidth, terminalHeight);
      console := console[currentScreen := lines];
      Commit(shown.(rows := Shift(shown.rows, y, h, 0 - n, BlankRow(terminalWidth))));
    }

    /** The lines of a region move down. */
    method ScrollLinesDown(y: nat, h: nat, n: nat, color: Class)
      requires Valid() && y + h + n <= terminalHeight
      modifies `console, `shown
      ensures Valid()
      ensures shown == old(shown.(rows := Shift(shown.rows, y, h, n, BlankRow(terminalWidth))))
    {
      assert IsPage(currentScreen) && IsPage(1 - currentScreen);
      var lines := ShiftLinesDown(console[currentScreen], y, h, n, color, shown, Limit(currentScreen),
                                  terminalWidth, terminalHeight);
      console := console[currentScreen := lines];
      Commit(shown.(rows := Shift(shown.rows, y, h, n, BlankRow(terminalWidth))));
    }

    /** A part of some lines moves up or sideways, line by line from the top, so
        that each line is read before it is written. */
    method MoveSegmentsUp(x: nat, y: nat, w: nat, h: nat, incX: int, incY: int)
      requires Valid() && CursorOnScreen() && w > 0 && incY <= 0
      requires x + w <= terminalWidth && 0 <= x + incX && x + w + incX <= terminalWidth
      requires 0 <= y + incY && y + h <= terminalHeight
      modifies `console, `shown, `cursorX, `cursorY
      ensures Valid() && cursorX == old(cursorX) && cursorY == old(cursorY)
      ensures var g := old(shown);
        shown == g.(rows := MoveRect(g.rows, x, y, w, h, incX, incY))
    {
      ghost var g := shown;
      var i := y + numScrollbackLines;
      MoveNothing(g.rows, x, y, w, incX, incY);
      while i < y + numScrollbackLines + h
        invariant y + numScrollbackLines <= i <= y + numScrollbackLines + h
        invariant Valid() && cursorX == old(cursorX) && cursorY == old(cursorY)
        invariant shown ==
          g.(rows := MoveRect(g.rows, x, y, w, i - numScrollbackLines - y, incX, incY))
      {
        MoveNextUp(g, x, y, w, i - numScrollbackLines - y, incX, incY);
        CopyLineSegment(x + incX, i + incY, x, i, w);
        i := i + 1;
      }
    }

    /** A part of some lines moves down, line by line from the bottom. */
    method MoveSegmentsDown(x: nat, y: nat, w: nat, h: nat, incX: int, incY: int)
      requires Valid() && CursorOnScreen() && w > 0 && incY > 0
      requires x + w <= terminalWidth && 0 <= x + incX && x + w + incX <= terminalWidth
      requires y + h + incY <= terminalHeight
      modifies `console, `shown, `cursorX, `cursorY
      ensures Valid() && cursorX == old(cursorX) && cursorY == old(cursorY)
      ensures var g := old(shown);
        shown == g.(rows := MoveRect(g.rows, x, y, w, h, incX, incY))
    {
      hide MoveRect;
      ghost var g := shown;
      var i := y + numScrollbackLines + h;
      MoveNothing(g.rows, x, y + h, w, incX, incY);
      while i > y + numScrollbackLines
        invariant y + numScrollbackLines <= i <= y + numScrollbackLines + h
        invariant Valid() && cursorX == old(cursorX) && cursorY == old(cursorY)
        invariant shown ==
          g.(rows := MoveRect(g.rows, x, i - numScrollbackLines, w, y + h - (i - numScrollbackLines), incX, incY))
      {
        MoveNextDown(g, x, i - numScrollbackLines, w, y + h - (i - numScrollbackLines), incX, incY);
        i := i - 1;
        CopyLineSegment(x + incX, i + incY, x, i, w);
      }
    }

    // clearRegion of a rectangle known to be on screen.
    method ClearInside(x: nat, y: nat, w: nat, h: nat, color: Class)
      requires Valid() && CursorOnScreen() && w > 0 && x + w <= terminalWidth && y + h <= terminalHeight
      modifies `console, `shown, `cursorX, `cursorY
      ensures Valid() && cursorX == old(cursorX) && cursorY == old(cursorY)
      ensures var g := old(shown);
        shown == g.(rows := FillRect(g.rows, x, y, w, h, MakeCell(SPACE, color, Plain)))
    {
      ClearIsFill(shown, terminalWidth, terminalHeight, x, y, w, h, MakeCell(SPACE, color, Plain));
      ClearRegion(x, y, w, h, color, Plain);
    }

    /** Blanks what a moved rectangle left behind. */
    method ClearStrips(x: nat, y: nat, w: nat, h: nat, incX: int, incY: int, color: Class)
      requires Valid() && CursorOnScreen() && w > 0
      requires x + w <= terminalWidth && 0 <= x + incX && x + w + incX <= terminalWidth
      requires 0 <= y + incY && y + h <= terminalHeight && y + h + incY <= terminalHeight
      modifies `console, `shown, `cursorX, `cursorY
      ensures Valid() && cursorX == old(cursorX) && cursorY == old(cursorY)
      ensures var g, blank := old(shown), MakeCell(SPACE, color, Plain);
        shown == g.(rows := VacatedStrips(g.rows, x, y, w, h, incX, incY, blank))
    {
      if incX > 0 {
        ClearInside(x, y, incX, h, color);
      } else if incX < 0 {
        ClearInside(x + w + incX, y, -incX, h, color);
      }
      if incY > 0 {
        ClearInside(x, y, w, incY, color);
      } else if incY < 0 {
        ClearInside(x, y + h + incY, w, -incY, color);
      }
    }

    /** Moves a rectangle of the screen; the cursor stays. */
    method ScrollRegion(x0: int, y0: int, w0: int, h0: int, incX: int, incY: int, color: Class, style: Style)
      requires Valid() && CursorOnScreen()
      modifies `console, `shown, `cursorX, `cursorY, `numScrollbackLines
      ensures Valid() && cursorX == old(cursorX) && cursorY == old(cursorY)
      ensures shown ==
        Scroll(old(shown), currentScreen == 1, terminalWidth, terminalHeight,
               x0, y0, w0, h0, incX, incY, MakeCell(SPACE, color, Plain))
    {
      hide ScrollInside, Scroll;
      var left, right := if incX < 0 then -incX else 0, if incX > 0 then incX else 0;
      var up, down := if incY < 0 then -incY else 0, if incY > 0 then incY else 0;
      var x, w, y, h := x0, w0 + x0, y0, h0 + y0;
      if x < left { x := left; }
      if w > terminalWidth - right { w := terminalWidth - right; }
      w := w - x;
      if y < up { y := up; }
      if h > terminalHeight - down { h := terminalHeight - down; }
      h := h - y;
      ClipScrolls(shown, currentScreen == 1, terminalWidth, terminalHeight,
                  x0, y0, w0, h0, incX, incY, MakeCell(SPACE, color, Plain), Clip(x, y, w, h));
      if w > 0 && h >= 0 {
        // Never fill with underlined spaces.
        ScrollClipped(x, y, w, h, incX, incY, color);
      }
    }

    method ScrollClipped(x: nat, y: nat, w: nat, h: nat, incX: int, incY: int, color: Class)
      requires Valid() && CursorOnScreen() && w > 0
      requires 0 <= x + incX && x + w <= terminalWidth && x + w + incX <= terminalWidth
      requires 0 <= y + incY && y + h <= terminalHeight && y + h + incY <= terminalHeight
      modifies `console, `shown, `cursorX, `cursorY, `numScrollbackLines
      ensures Valid() && cursorX == old(cursorX) && cursorY == old(cursorY)
      ensures shown ==
        ScrollInside(old(shown), currentScreen == 1, terminalWidth, terminalHeight,
                     x, y, w, h, incX, incY, MakeCell(SPACE, color, Plain))
    {
      var cx, cy := cursorX, cursorY;
      if incX == 0 && x == 0 && w == terminalWidth {
        if incY < 0 {
          if currentScreen == 0 && y == -incY && h == terminalHeight + incY {
            ScrollIntoScrollback(y, color);
          } else {
            ScrollLinesUp(y, h, -incY, color);
          }
        } else {
          ScrollLinesDown(y, h, incY, color);
        }
      } else {
        if incY <= 0 {
          MoveSegmentsUp(x, y, w, h, incX, incY);
        } else {
          MoveSegmentsDown(x, y, w, h, incX, incY);
        }
        ClearStrips(x, y, w, h, incX, incY, color);
      }
      ShowCursor(cx, cy);
    }
  }

  lemma PutNothing(g: Grid, x: nat, y: int, cells: Row)
    requires cells == []
    ensures g.Put(x, y, cells) == g
  {
    if 0 <= y < |g.rows| {
      SpliceAt(g.rows[y], x, cells);
      assert Splice(g.rows[y], x, cells) == g.rows[y];
    }
  }

  // Writing on where the last write ended is one write.
  lemma PutTwice(g: Grid, x: nat, y: nat, a: Row, b: Row)
    requires y < |g.rows|
    ensures g.Put(x, y, a).Put(x + |a|, y, b) == g.Put(x, y, a + b)
  {
    SpliceAt(g.rows[y], x, a);
    SpliceAt(Splice(g.rows[y], x, a), x + |a|, b);
    SpliceAt(g.rows[y], x, a + b);
    assert Splice(Splice(g.rows[y], x, a), x + |a|, b) == Splice(g.rows[y], x, a + b);
  }

  lemma EmptyPage(width: nat, height: nat)
    ensures Picture([], 0, width, height) == BlankGrid(width, height)
  {
    PictureAt([], 0, width, height);
  }

  // A page without lines shows what a page filled with blanks shows.
  lemma BlankPage(lines: seq<Line>, width: nat, height: nat)
    ensures var g := Picture(lines, 0, width, height);
      Picture([], 0, width, height) == g.(rows := FillRect(g.rows, 0, 0, width, height, BLANK_CELL))
  {
    var g, none := Picture(lines, 0, width, height), Picture([], 0, width, height);
    PictureAt(lines, 0, width, height);
    PictureAt([], 0, width, height);
    FillRectAt(g.rows, 0, 0, width, height, BLANK_CELL);
    forall i | 0 <= i < height
      ensures Splice(g.rows[i], 0, Fill(width, BLANK_CELL)) == BlankRow(width)
    {
      SpliceAt(g.rows[i], 0, Fill(width, BLANK_CELL));
    }
    assert none.rows == FillRect(g.rows, 0, 0, width, height, BLANK_CELL);
  }

  lemma FillNextRow(g: Grid, x: nat, y: nat, w: nat, h: nat, cell: Cell)
    requires y < |g.rows| && h > 0
    ensures g.(rows := FillRect(g.rows, x, y + 1, w, h - 1, cell)).Put(x, y, Fill(w, cell))
            == g.(rows := FillRect(g.rows, x, y, w, h, cell))
  {
    FillRectAt(g.rows, x, y + 1, w, h - 1, cell);
    FillRectAt(g.rows, x, y, w, h, cell);
  }
}
