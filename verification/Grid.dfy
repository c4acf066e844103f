/** The plain picture that the terminal's page of lines stands for: a grid of
    visible rows and the rows scrolled off above it. */
module Grid {
  import opened Cells
  import opened Rows

  // VT100.maxScrollbackLines
  const MAX_SCROLLBACK: nat := 500

  datatype Grid = Grid(back: seq<Row>, rows: seq<Row>) {

    ghost predicate Fits(width: nat, height: nat) {
      && |rows| == height && |back| <= MAX_SCROLLBACK
      && (forall r :: 0 <= r < |rows| ==> |rows[r]| == width)
      && (forall r :: 0 <= r < |back| ==> |back[r]| == width)
    }

    function Put(x: int, y: int, cells: Row): (g: Grid) {
      if 0 <= y < |rows| then this.(rows := rows[y := Splice(rows[y], x, cells)]) else this
    }
  }

  function BlankGrid(width: nat, height: nat): Grid {
    Grid([], Fill(height, BlankRow(width)))
  }

  /** `rows` with the rectangle of w x h cells at (x, y) filled with `cell`. */
  function FillRect(rows: seq<Row>, x: int, y: int, w: nat, h: nat, cell: Cell): (r: seq<Row>)
    ensures |r| == |rows|
  {
    Tabulate(|rows|, i => FilledRow(rows, x, y, w, h, cell, i))
  }

  function FilledRow(rows: seq<Row>, x: int, y: int, w: nat, h: nat, cell: Cell, i: nat): Row {
    if y <= i < y + h then Splice(At(rows, i, []), x, Fill(w, cell)) else At(rows, i, [])
  }

  lemma FillRectAt(rows: seq<Row>, x: int, y: int, w: nat, h: nat, cell: Cell)
    ensures forall i: nat :: i < |rows| ==> FillRect(rows, x, y, w, h, cell)[i] == FilledRow(rows, x, y, w, h, cell, i)
  {
    Tabulates(|rows|, i => FilledRow(rows, x, y, w, h, cell, i));
  }

  /** The w x h cells at (x, y) moved by (incX, incY), all at once. */
  function MoveRect(rows: seq<Row>, x: nat, y: nat, w: nat, h: nat, incX: int, incY: int): (r: seq<Row>)
    ensures |r| == |rows|
  {
    Tabulate(|rows|, i => MovedRow(rows, x, y, w, h, incX, incY, i))
  }

  function MovedRow(rows: seq<Row>, x: nat, y: nat, w: nat, h: nat, incX: int, incY: int, i: nat): Row {
    if y <= i - incY < y + h
    then Splice(At(rows, i, []), x + incX, Columns(At(rows, i - incY, []), x, w))
    else At(rows, i, [])
  }

  lemma MoveRectAt(rows: seq<Row>, x: nat, y: nat, w: nat, h: nat, incX: int, incY: int)
    ensures forall i: nat :: i < |rows| ==>
      MoveRect(rows, x, y, w, h, incX, incY)[i] == MovedRow(rows, x, y, w, h, incX, incY, i)
  {
    Tabulates(|rows|, i => MovedRow(rows, x, y, w, h, incX, incY, i));
  }

  datatype Clip = Clip(x: int, y: int, w: int, h: int)

  // The part of a rectangle that is on screen.
  function ClipRect(x: int, y: int, w: int, h: int, width: nat, height: nat): Clip {
    var x', y' := if x < 0 then 0 else x, if y < 0 then 0 else y;
    Clip(x', y', (if w + x > width then width else w + x) - x', (if h + y > height then height else h + y) - y')
  }

  /** VT100.clearRegion on the grid: the rectangle, clipped to the screen,
      filled with `cell`. */
  function Clear(g: Grid, width: nat, height: nat, x: int, y: int, w: int, h: int, cell: Cell): (r: Grid) {
    var c := ClipRect(x, y, w, h, width, height);
    if c.w <= 0 || c.h <= 0 then g else g.(rows := FillRect(g.rows, c.x, c.y, c.w, c.h, cell))
  }

  // The part of a rectangle that is on screen both before and after a move.
  function ClipMove(x: int, y: int, w: int, h: int, incX: int, incY: int, width: nat, height: nat): (c: Clip)
    ensures c.w > 0 && c.h >= 0 ==>
      && 0 <= c.x && 0 <= c.x + incX && c.x + c.w <= width && c.x + c.w + incX <= width
      && 0 <= c.y && 0 <= c.y + incY && c.y + c.h <= height && c.y + c.h + incY <= height
  {
    var left, right := if incX < 0 then -incX else 0, if incX > 0 then incX else 0;
    var up, down := if incY < 0 then -incY else 0, if incY > 0 then incY else 0;
    var x' := if x < left then left else x;
    var w' := (if w + x > width - right then width - right else w + x) - x';
    var y' := if y < up then up else y;
    var h' := (if h + y > height - down then height - down else h + y) - y';
    Clip(x', y', w', h')
  }

  /** VT100.scrollRegion on the grid: whole lines shift, feeding the scrollback
      when the region is the whole normal screen; part of a line moves as a
      rectangle, and the strips it vacates are filled with `blank`. */
  function Scroll(g: Grid, alternate: bool, width: nat, height: nat,
                  x: int, y: int, w: int, h: int, incX: int, incY: int, blank: Cell): (r: Grid)
    requires |g.rows| == height
  {
    var c := ClipMove(x, y, w, h, incX, incY, width, height);
    if c.w <= 0 || c.h < 0 then g
    else ScrollInside(g, alternate, width, height, c.x, c.y, c.w, c.h, incX, incY, blank)
  }

  function ScrollInside(g: Grid, alternate: bool, width: nat, height: nat,
                        x: nat, y: nat, w: nat, h: nat, incX: int, incY: int, blank: Cell): (r: Grid)
    requires |g.rows| == height
    requires 0 <= y + incY && y + h <= height && y + h + incY <= height
  {
    if incX == 0 && x == 0 && w == width then
      if incY < 0 && !alternate && y == -incY && h == height + incY
      then ScrollUp(g, BlankRow(width), -incY)
      else g.(rows := Shift(g.rows, y, h, incY, BlankRow(width)))
    else
      g.(rows := VacatedStrips(MoveRect(g.rows, x, y, w, h, incX, incY), x, y, w, h, incX, incY, blank))
  }

  // `rows` with the strips filled that a rectangle at (x, y) vacates when it
  // moves by (incX, incY).
  function VacatedStrips(rows: seq<Row>, x: int, y: int, w: nat, h: nat, incX: int, incY: int, blank: Cell):
    (r: seq<Row>)
    ensures |r| == |rows|
  {
    var sides := if incX > 0 then FillRect(rows, x, y, incX, h, blank)
                 else if incX < 0 then FillRect(rows, x + w + incX, y, -incX, h, blank)
                 else rows;
    if incY > 0 then FillRect(sides, x, y, w, incY, blank)
    else if incY < 0 then FillRect(sides, x, y + h + incY, w, -incY, blank)
    else sides
  }

  /** The top `n` rows leave the screen and become the newest scrollback rows;
      the oldest are dropped beyond the limit. */
  function ScrollUp(g: Grid, blank: Row, n: nat): (r: Grid)
    requires n <= |g.rows|
    ensures |r.rows| == |g.rows| && |r.back| <= MAX_SCROLLBACK
  {
    Grid(Last(g.back + g.rows[..n], MAX_SCROLLBACK), g.rows[n..] + Fill(n, blank))
  }
}
