/** What the sequences that erase, insert and delete do to the rows of the screen. */
module EditFacts {
  import opened Rows
  import opened Cells
  import opened Grid
  import opened TermSpec
  import opened ScreenFacts
  import opened SequenceFacts
  import opened MotionFacts

  // The state after a sequence of one parameter that does nothing else.
  function After(t: Term, n: nat): Term {
    WithEsc(Reading(t, [n]), Normal)
  }

  lemma SequenceEdits(c: Config, t: Term, n: nat, ch: CodeUnit, nested: bool)
    requires Sound(c, t) && !t.modes.printing && EditsScreen(ch)
    ensures Process(c, t, Sequence([n], ch), nested) == CsiEdit(c, After(t, n), ch)
    ensures Par(After(t, n).parser, 0) == n
  {
    hide Process, Sequence, CsiEdit, Collected;
    SequenceActs(c, t, [n], ch, nested);
    Parameters(t, [n]);
  }

  // What an erased position shows: a space in the current look.
  function Erased(t: Term): Cell {
    Cell(SPACE, t.pen.color, t.pen.style)
  }

  lemma BlankErases(c: Config, t: Term)
    requires Sound(c, t)
    ensures TermSpec.Blank(t) == Erased(t) && MakeCell(SPACE, t.pen.color, Plain) == Cell(SPACE, t.pen.color, Plain)
  {
  }

  // ---- Erasing ----

  /** CSI K: the cursor's row is erased from the cursor on, up to it, or as a whole. */
  lemma LineErased(c: Config, t: Term, how: nat, nested: bool)
    requires Sound(c, t) && t.page.Fits(c.width, c.height) && !t.modes.printing && how <= 2
    ensures var row, blank := t.page.rows[t.y], Erased(t);
      Process(c, t, Sequence([how], 0x4B), nested)
      == After(t, how).(page := t.page.(rows := t.page.rows[t.y :=
           if how == 0 then row[..t.x] + Fill(c.width - t.x, blank)
           else if how == 1 then Fill(t.x + 1, blank) + row[t.x + 1..]
           else Fill(c.width, blank)]))
  {
    hide Process, Sequence, Collected, Clear, Fill;
    SequenceEdits(c, t, how, 0x4B, nested);
    BlankErases(c, t);
    EraseLineErases(c, After(t, how), how);
  }

  lemma CharsErase(c: Config, t: Term, n: nat)
    requires Sound(c, t) && t.page.Fits(c.width, c.height)
    ensures var row, k := t.page.rows[t.y], Capped(n, c.width - t.x);
      EraseChars(c, t, n)
      == t.(page := t.page.(rows := t.page.rows[t.y := row[..t.x] + Fill(k, Erased(t)) + row[t.x + k..]]))
  {
    hide Clear, Fill;
    ClearsOneRow(t.page, c.width, c.height, t.x, t.y, Capped(n, c.width - t.x), TermSpec.Blank(t));
  }

  // A count of positions, as far as there are any.
  function Capped(n: nat, limit: nat): (r: nat)
    ensures r <= limit && (limit > 0 ==> r > 0)
  {
    if Count(n) < limit then Count(n) else limit
  }

  /** CSI X: that many positions are erased from the cursor on, up to the border. */
  lemma CharsErased(c: Config, t: Term, n: nat, nested: bool)
    requires Sound(c, t) && t.page.Fits(c.width, c.height) && !t.modes.printing
    ensures var row, k := t.page.rows[t.y], Capped(n, c.width - t.x);
      Process(c, t, Sequence([n], 0x58), nested)
      == After(t, n).(page := t.page.(rows := t.page.rows[t.y := row[..t.x] + Fill(k, Erased(t)) + row[t.x + k..]]))
  {
    hide Process, Sequence, Collected, EraseChars, Fill, Capped;
    SequenceEdits(c, t, n, 0x58, nested);
    CharsErase(c, After(t, n), n);
  }

  // A whole row replaced is the new row.
  lemma RowCleared(g: Grid, width: nat, height: nat, y: nat, h: nat, cell: Cell)
    requires g.Fits(width, height) && y + h <= height && width > 0 && h > 0
    ensures var r := Clear(g, width, height, 0, y, width, h, cell);
      && r.Fits(width, height) && r.back == g.back
      && r.rows == g.rows[..y] + Fill(h, Fill(width, cell)) + g.rows[y + h..]
  {
    hide Clear, Replaced;
    ClearsRows(g, width, height, 0, y, width, h, cell);
    forall i | y <= i < y + h
      ensures Replaced(g.rows[i], 0, Fill(width, cell)) == Fill(width, cell)
    {
      EdgeReplaced(g.rows[i], 0, Fill(width, cell));
    }
  }

  lemma DisplayErasesAll(c: Config, t: Term)
    requires Sound(c, t) && t.page.Fits(c.width, c.height)
    ensures EraseDisplay(c, t, 2) == t.(page := t.page.(rows := Fill(c.height, Fill(c.width, Erased(t)))))
  {
    hide Clear;
    RowCleared(t.page, c.width, c.height, 0, c.height, TermSpec.Blank(t));
  }

  lemma DisplayErasesAbove(c: Config, t: Term)
    requires Sound(c, t) && t.page.Fits(c.width, c.height)
    ensures var row, blank := t.page.rows[t.y], Erased(t);
      EraseDisplay(c, t, 1)
      == t.(page := t.page.(rows := Fill(t.y, Fill(c.width, blank)) + [Fill(t.x + 1, blank) + row[t.x + 1..]]
                                    + t.page.rows[t.y + 1..]))
  {
    hide Clear, Replaced;
    var blank := TermSpec.Blank(t);
    var t1 := if t.y > 0 then ClearIn(c, t, 0, 0, c.width, t.y) else t;
    if t.y > 0 {
      RowCleared(t.page, c.width, c.height, 0, t.y, blank);
    }
    ClearsOneRow(t1.page, c.width, c.height, 0, t.y, t.x + 1, blank);
    EdgeReplaced(t.page.rows[t.y], 0, Fill(t.x + 1, blank));
  }

  /** CSI 1 J erases the rows above the cursor and its own up to it; CSI 2 J erases
      every row. */
  lemma DisplayErased(c: Config, t: Term, nested: bool)
    requires Sound(c, t) && t.page.Fits(c.width, c.height) && !t.modes.printing
    ensures var row, blank := t.page.rows[t.y], Erased(t);
      && Process(c, t, Sequence([1], 0x4A), nested)
         == After(t, 1).(page := t.page.(rows := Fill(t.y, Fill(c.width, blank))
                                                 + [Fill(t.x + 1, blank) + row[t.x + 1..]] + t.page.rows[t.y + 1..]))
      && Process(c, t, Sequence([2], 0x4A), nested)
         == After(t, 2).(page := t.page.(rows := Fill(c.height, Fill(c.width, blank))))
  {
    hide Process, Sequence, Collected, EraseDisplay, Fill;
    SequenceEdits(c, t, 1, 0x4A, nested);
    SequenceEdits(c, t, 2, 0x4A, nested);
    DisplayErasesAbove(c, After(t, 1));
    DisplayErasesAll(c, After(t, 2));
  }

  lemma DisplayErasesBelow(c: Config, t: Term)
    requires Sound(c, t) && t.page.Fits(c.width, c.height)
    ensures var row, blank := t.page.rows[t.y], Erased(t);
      EraseDisplay(c, t, 0)
      == t.(page := t.page.(rows := t.page.rows[..t.y] + [row[..t.x] + Fill(c.width - t.x, blank)]
              + if t.y == c.height - 2 then t.page.rows[t.y + 1..] else Fill(c.height - t.y - 1, Fill(c.width, blank))))
  {
    hide Clear, Replaced;
    var blank := TermSpec.Blank(t);
    var t1 := ClearIn(c, t, t.x, t.y, c.width - t.x, 1);
    ClearsOneRow(t.page, c.width, c.height, t.x, t.y, c.width - t.x, blank);
    EdgeReplaced(t.page.rows[t.y], t.x, Fill(c.width - t.x, blank));
    if t.y < c.height - 2 {
      RowCleared(t1.page, c.width, c.height, t.y + 1, c.height - t.y - 1, blank);
      assert t1.page.rows[..t.y + 1] == t.page.rows[..t.y] + [t1.page.rows[t.y]];
    }
  }

  /** CSI 0 J erases from the cursor to the end of the screen, but for the last row when
      the cursor is on the row above it; any other parameter erases nothing. */
  lemma DisplayErasedBelow(c: Config, t: Term, how: nat, nested: bool)
    requires Sound(c, t) && t.page.Fits(c.width, c.height) && !t.modes.printing
    ensures var row, blank := t.page.rows[t.y], Erased(t);
      Process(c, t, Sequence([0], 0x4A), nested)
      == After(t, 0).(page := t.page.(rows := t.page.rows[..t.y] + [row[..t.x] + Fill(c.width - t.x, blank)]
              + if t.y == c.height - 2 then t.page.rows[t.y + 1..] else Fill(c.height - t.y - 1, Fill(c.width, blank))))
    ensures how > 2 ==>
      && Process(c, t, Sequence([how], 0x4A), nested) == After(t, how)
      && Process(c, t, Sequence([how], 0x4B), nested) == After(t, how)
  {
    hide Process, Sequence, Collected, Fill, Clear;
    SequenceEdits(c, t, 0, 0x4A, nested);
    SequenceEdits(c, t, how, 0x4A, nested);
    SequenceEdits(c, t, how, 0x4B, nested);
    DisplayErasesBelow(c, After(t, 0));
  }

  // ---- Inserting and deleting ----

  /** CSI @ and CSI P: blanks come into the row at the cursor and push the rest to the
      right; or characters go, and blanks follow at the end.  A count that reaches the
      border changes nothing. */
  lemma CharsInserted(c: Config, t: Term, n: nat, nested: bool)
    requires Sound(c, t) && t.page.Fits(c.width, c.height) && !t.modes.printing
    ensures var row, k, blank := t.page.rows[t.y], Capped(n, c.width - t.x), Cell(SPACE, t.pen.color, Plain);
      && Process(c, t, Sequence([n], 0x40), nested)
         == (if t.x + k == c.width then After(t, n).(needWrap := false)
             else After(t, n).(needWrap := false, page := t.page.(rows := t.page.rows[t.y :=
                    row[..t.x] + Fill(k, blank) + row[t.x..c.width - k]])))
      && Process(c, t, Sequence([n], 0x50), nested)
         == (if t.x + k == c.width then After(t, n)
             else After(t, n).(page := t.page.(rows := t.page.rows[t.y :=
                    row[..t.x] + row[t.x + k..] + Fill(k, blank)])))
  {
    hide Process, Sequence, Collected, Scroll, Fill;
    SequenceEdits(c, t, n, 0x40, nested);
    SequenceEdits(c, t, n, 0x50, nested);
    BlankErases(c, t);
    InsertCharsInserts(c, After(t, n), n);
    DeleteCharsDeletes(c, After(t, n), n);
  }

  lemma LinesInsert(c: Config, t: Term, n: nat)
    requires Sound(c, t) && t.y < t.bottom
    ensures var rows, k := t.page.rows, Capped(n, t.bottom - t.y); var blanks := Fill(k, BlankRow(c.width));
      && InsertLines(c, t, n)
         == t.(page := t.page.(rows := rows[..t.y] + blanks + rows[t.y..t.bottom - k] + rows[t.bottom..]))
      && DeleteLines(c, t, n)
         == t.(page := Grid(
              if !t.alternate && t.y == 0 && t.bottom == c.height
              then Last(t.page.back + rows[..k], MAX_SCROLLBACK) else t.page.back,
              rows[..t.y] + rows[t.y + k..t.bottom] + blanks + rows[t.bottom..]))
  {
    hide Scroll, Last;
    InsertLinesInserts(c, t, n);
    DeleteLinesDeletes(c, t, n);
  }

  /** CSI L: blank rows come into the region at the cursor and push the rest down. */
  lemma LinesInserted(c: Config, t: Term, n: nat, nested: bool)
    requires Sound(c, t) && !t.modes.printing && t.y < t.bottom
    ensures var rows, k := t.page.rows, Capped(n, t.bottom - t.y);
      Process(c, t, Sequence([n], 0x4C), nested)
      == After(t, n).(page := t.page.(rows :=
           rows[..t.y] + Fill(k, BlankRow(c.width)) + rows[t.y..t.bottom - k] + rows[t.bottom..]))
  {
    hide Process, Sequence, Collected, InsertLines, DeleteLines, Fill, Last, Capped;
    SequenceEdits(c, t, n, 0x4C, nested);
    LinesInsert(c, After(t, n), n);
  }

  /** CSI M: rows go, blank ones follow at the end of the region, and rows that leave the
      top of the whole normal screen become its newest history. */
  lemma LinesDeleted(c: Config, t: Term, n: nat, nested: bool)
    requires Sound(c, t) && !t.modes.printing && t.y < t.bottom
    ensures var rows, k := t.page.rows, Capped(n, t.bottom - t.y);
      Process(c, t, Sequence([n], 0x4D), nested)
      == After(t, n).(page := Grid(
           if !t.alternate && t.y == 0 && t.bottom == c.height
           then Last(t.page.back + rows[..k], MAX_SCROLLBACK) else t.page.back,
           rows[..t.y] + rows[t.y + k..t.bottom] + Fill(k, BlankRow(c.width)) + rows[t.bottom..]))
  {
    hide Process, Sequence, Collected, InsertLines, DeleteLines, Fill, Last, Capped;
    SequenceEdits(c, t, n, 0x4D, nested);
    LinesInsert(c, After(t, n), n);
  }

  /** Below the region neither changes anything. */
  lemma NoLinesInserted(c: Config, t: Term, n: nat, nested: bool)
    requires Sound(c, t) && !t.modes.printing && t.y >= t.bottom
    ensures Process(c, t, Sequence([n], 0x4C), nested) == After(t, n)
    ensures Process(c, t, Sequence([n], 0x4D), nested) == After(t, n)
  {
    hide Process, Sequence, Collected, Scroll;
    SequenceEdits(c, t, n, 0x4C, nested);
    SequenceEdits(c, t, n, 0x4D, nested);
  }
}
