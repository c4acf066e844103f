/** Characters, colours and cells of the terminal screen, and the two shapes a
    line of the page can take: a blank `<pre>`, or a `<div>` of styled runs. */
module Cells {
  import opened Rows

  // A UTF-16 code unit.
  type CodeUnit = nat

  const SPACE: CodeUnit := 0x20
  const NBSP: CodeUnit := 0xA0

  // The class name of a `<span>`: none, or 'ansi<fg> bgAnsi<bg>'.
  datatype Class = NoClass | Ansi(fg: nat, bg: nat)

  // The style text of a `<span>`: '' or 'text-decoration:underline;'.
  datatype Style = Plain | Underline

  const DEFAULT_CLASS := Ansi(0, 15)

  datatype Run = Run(text: seq<CodeUnit>, cls: Class, style: Style)

  datatype Line = Blank | Runs(runs: seq<Run>)

  /** What one position of the screen shows. */
  datatype Cell = Cell(ch: CodeUnit, cls: Class, style: Style)

  const BLANK_CELL := Cell(SPACE, DEFAULT_CLASS, Plain)

  type Row = seq<Cell>

  // A missing class name shows as the default colours, and a non-breaking
  // space shows as a space.
  function MakeCell(ch: CodeUnit, cls: Class, style: Style): Cell {
    Cell(if ch == NBSP then SPACE else ch, if cls == NoClass then DEFAULT_CLASS else cls, style)
  }

  function TextCells(text: seq<CodeUnit>, cls: Class, style: Style): (cells: Row)
    ensures |cells| == |text|
  {
    seq(|text|, i requires 0 <= i < |text| => MakeCell(text[i], cls, style))
  }

  function BlankRow(width: nat): (row: Row)
    ensures |row| == width
  {
    Fill(width, BLANK_CELL)
  }

  function Spaces(n: int): (s: seq<CodeUnit>)
    ensures |s| == if n < 0 then 0 else n
    ensures forall i :: 0 <= i < |s| ==> s[i] == SPACE
  {
    seq(if n < 0 then 0 else n, _ => SPACE)
  }

  /** The cells that a list of runs shows, left to right. */
  function Flatten(runs: seq<Run>): Row {
    if runs == [] then [] else TextCells(runs[0].text, runs[0].cls, runs[0].style) + Flatten(runs[1..])
  }

  lemma {:induction false} FlattenConcat(a: seq<Run>, b: seq<Run>)
    ensures Flatten(a + b) == Flatten(a) + Flatten(b)
  {
    if a == [] {
      assert a + b == b;
    } else {
      FlattenConcat(a[1..], b);
      var ab := a + b;
      assert ab[0] == a[0] && ab[1..] == a[1..] + b;
      ConcatAssoc(TextCells(a[0].text, a[0].cls, a[0].style), Flatten(a[1..]), Flatten(b));
    }
  }

  lemma ConcatAssoc(a: Row, b: Row, c: Row)
    ensures a + (b + c) == (a + b) + c
  {
  }

  function LineCells(line: Line): Row {
    if line.Blank? then [] else Flatten(line.runs)
  }

  // A row of `width` cells: the given ones, then blanks.
  function Pad(cells: Row, width: nat): (row: Row)
    ensures |row| == width
  {
    seq(width, i requires 0 <= i < width => if i < |cells| then cells[i] else BLANK_CELL)
  }

  // What column `x` of a line shows.
  function CellAt(runs: seq<Run>, x: nat): Cell {
    if runs == [] then BLANK_CELL
    else if x < |runs[0].text| then MakeCell(runs[0].text[x], runs[0].cls, runs[0].style)
    else CellAt(runs[1..], x - |runs[0].text|)
  }

  lemma {:induction false} CellAtIsFlatten(runs: seq<Run>, x: nat)
    ensures CellAt(runs, x) == if x < |Flatten(runs)| then Flatten(runs)[x] else BLANK_CELL
  {
    if runs != [] {
      if x >= |runs[0].text| {
        CellAtIsFlatten(runs[1..], x - |runs[0].text|);
      }
    }
  }

  /** The row of `width` cells that a line shows. */
  function View(line: Line, width: nat): (row: Row)
    ensures |row| == width
  {
    if width == 0 then []
    else View(line, width - 1) + [CellAt(if line.Blank? then [] else line.runs, width - 1)]
  }

  lemma {:induction false} ViewIsPad(line: Line, width: nat)
    ensures View(line, width) == Pad(LineCells(line), width)
  {
    if width > 0 {
      ViewIsPad(line, width - 1);
      CellAtIsFlatten(if line.Blank? then [] else line.runs, width - 1);
    }
  }

  // The number of characters on a line.
  function LineLength(line: Line): nat {
    if line.Blank? then 0 else RunsLength(line.runs)
  }

  function RunsLength(runs: seq<Run>): nat {
    if runs == [] then 0 else |runs[0].text| + RunsLength(runs[1..])
  }

  lemma {:induction false} FlattenLength(runs: seq<Run>)
    ensures |Flatten(runs)| == RunsLength(runs)
  {
    if runs != [] {
      FlattenLength(runs[1..]);
    }
  }

  /** `row` with `cells` written from column `x` on. */
  function Splice(row: Row, x: int, cells: Row): (r: Row)
    ensures |r| == |row|
  {
    Tabulate(|row|, i => SplicedCell(row, x, cells, i))
  }

  function SplicedCell(row: Row, x: int, cells: Row, i: nat): Cell {
    if x <= i < x + |cells| then cells[i - x] else At(row, i, BLANK_CELL)
  }

  lemma SpliceAt(row: Row, x: int, cells: Row)
    ensures forall i: nat :: i < |row| ==> Splice(row, x, cells)[i] == SplicedCell(row, x, cells, i)
  {
    Tabulates(|row|, i => SplicedCell(row, x, cells, i));
  }

  // Columns [x, x+w) of a row; blank where the row ends early.
  function Columns(row: Row, x: nat, w: nat): (r: Row)
    ensures |r| == w
  {
    Tabulate(w, i => At(row, x + i, BLANK_CELL))
  }

  lemma ColumnsAt(row: Row, x: nat, w: nat)
    ensures forall i: nat :: i < w ==> Columns(row, x, w)[i] == At(row, x + i, BLANK_CELL)
  {
    Tabulates(w, i => At(row, x + i, BLANK_CELL));
  }
}
