/** The in-place edit of one line by VT100.putString: find the run where the
    text starts, pad and split it, delete what the text overwrites, merge equal
    neighbours, and prune trailing white space. */
module LineEdit {
  import opened Cells
  import opened Rows

  // `cells` with `over` written from column `x` on; `x` lies inside `cells`.
  function Overwrite(cells: Row, x: nat, over: Row): (r: Row)
    requires x <= |cells|
  {
    cells[..x] + over + (if x + |over| <= |cells| then cells[x + |over|..] else [])
  }

  predicate SameLook(a: Run, b: Run) {
    a.cls == b.cls && a.style == b.style
  }

  lemma FlattenSplit(runs: seq<Run>, k: nat)
    requires k < |runs|
    ensures Flatten(runs) == Flatten(runs[..k]) + TextCells(runs[k].text, runs[k].cls, runs[k].style)
                             + Flatten(runs[k + 1..])
  {
    assert runs == runs[..k] + runs[k..];
    FlattenConcat(runs[..k], runs[k..]);
  }

  /** The run where column `x` falls, and the column at which that run starts. */
  method Locate(runs: seq<Run>, x: nat) returns (k: nat, xPos: nat)
    requires runs != []
    ensures k < |runs| && xPos == |Flatten(runs[..k])| <= x
    ensures k + 1 == |runs| || x < xPos + |runs[k].text| || xPos == x
  {
    k, xPos := 0, 0;
    while k + 1 < |runs| && xPos < x
      invariant k < |runs| && xPos == |Flatten(runs[..k])| <= x
    {
      var len := |runs[k].text|;
      if xPos + len > x {
        break;
      }
      FlattenSplit(runs[..k + 1], k);
      assert runs[..k + 1][..k] == runs[..k] && runs[..k + 1][k + 1..] == [];
      xPos := xPos + len;
      k := k + 1;
    }
  }

  // The cells of a line, extended with blanks where it ends before column `x`.
  function Reach(cells: Row, x: nat): (r: Row)
    ensures |r| >= x && |r| >= |cells|
  {
    cells + Fill(if |cells| < x then x - |cells| else 0, BLANK_CELL)
  }

  lemma TextCellsConcat(a: seq<CodeUnit>, b: seq<CodeUnit>, cls: Class, style: Style)
    ensures TextCells(a + b, cls, style) == TextCells(a, cls, style) + TextCells(b, cls, style)
  {
  }

  lemma TextCellsSlice(s: seq<CodeUnit>, cls: Class, style: Style, i: nat, j: nat)
    requires i <= j <= |s|
    ensures TextCells(s[i..j], cls, style) == TextCells(s, cls, style)[i..j]
  {
  }

  lemma FlattenOne(r: Run)
    ensures Flatten([r]) == TextCells(r.text, r.cls, r.style)
  {
  }

  lemma FlattenTwo(a: Run, b: Run)
    ensures Flatten([a, b]) == TextCells(a.text, a.cls, a.style) + TextCells(b.text, b.cls, b.style)
  {
    assert [a, b] == [a] + [b];
    FlattenConcat([a], [b]);
  }

  // The run list around its run `k`, flattened piece by piece.
  lemma FlattenAround(a: seq<Run>, b: seq<Run>, c: seq<Run>)
    ensures Flatten(a + b + c) == Flatten(a) + Flatten(b) + Flatten(c)
  {
    FlattenConcat(a + b, c);
    FlattenConcat(a, b);
  }

  // `s.substr(i)`
  function From(s: seq<CodeUnit>, i: nat): (r: seq<CodeUnit>) {
    if i <= |s| then s[i..] else []
  }

  lemma SpacesShow(n: nat)
    ensures TextCells(Spaces(n), DEFAULT_CLASS, Plain) == Fill(n, BLANK_CELL)
  {
  }

  lemma PadByRun(runs: seq<Run>, n: nat)
    ensures Flatten(runs + [Run(Spaces(n), DEFAULT_CLASS, Plain)]) == Flatten(runs) + Fill(n, BLANK_CELL)
  {
    hide Flatten, TextCells, Spaces;
    FlattenConcat(runs, [Run(Spaces(n), DEFAULT_CLASS, Plain)]);
    FlattenOne(Run(Spaces(n), DEFAULT_CLASS, Plain));
    SpacesShow(n);
  }

  lemma PadInRun(init: seq<Run>, s: seq<CodeUnit>, n: nat)
    ensures Flatten(init + [Run(s + Spaces(n), DEFAULT_CLASS, Plain)])
            == Flatten(init + [Run(s, DEFAULT_CLASS, Plain)]) + Fill(n, BLANK_CELL)
  {
    hide Flatten, TextCells, Spaces, Fill;
    var short, long := Run(s, DEFAULT_CLASS, Plain), Run(s + Spaces(n), DEFAULT_CLASS, Plain);
    FlattenConcat(init, [short]);
    FlattenConcat(init, [long]);
    FlattenOne(short);
    FlattenOne(long);
    TextCellsConcat(s, Spaces(n), DEFAULT_CLASS, Plain);
    SpacesShow(n);
    ConcatAssoc(Flatten(init), TextCells(s, DEFAULT_CLASS, Plain), Fill(n, BLANK_CELL));
  }

  /** Pads the run `k` up to column `x` where the line is too short; appends a
      run of default colours for that when the last run has other colours. */
  method PadRun(runs: seq<Run>, k: nat, xPos: nat, x: nat) returns (padded: seq<Run>, k': nat, xPos': nat)
    requires k < |runs| && xPos == |Flatten(runs[..k])| <= x
    requires k + 1 == |runs| || x < xPos + |runs[k].text| || xPos == x
    ensures k' < |padded| && xPos' == |Flatten(padded[..k'])| <= x <= xPos' + |padded[k'].text|
    ensures Flatten(padded) == Reach(Flatten(runs), x)
    ensures k' == k || k' == k + 1
  {
    padded, k', xPos' := runs, k, xPos;
    RunEnds(runs, k);
    hide Flatten, Fill, TextCells;
    var s := runs[k].text;
    if xPos + |s| < x {
      assert k + 1 == |runs| && |Flatten(runs)| == xPos + |s|;
      var missing := Spaces(x - xPos - |s|);
      if runs[k].cls != DEFAULT_CLASS || runs[k].style != Plain {
        xPos' := xPos + |s|;
        k' := k + 1;
        missing := Spaces(x - xPos');
        padded := runs + [Run(missing, DEFAULT_CLASS, Plain)];
        PadByRun(runs, x - xPos');
        assert padded[..k'] == runs;
      } else {
        padded := runs[..k] + [Run(s + missing, DEFAULT_CLASS, Plain)];
        PadInRun(runs[..k], s, x - xPos - |s|);
        assert runs == runs[..k] + [Run(s, DEFAULT_CLASS, Plain)] && padded[..k] == runs[..k];
      }
    } else {
      assert Fill(0, BLANK_CELL) == [] && Flatten(runs) + [] == Flatten(runs);
    }
  }

  // Where run `k` ends.
  lemma RunEnds(runs: seq<Run>, k: nat)
    requires k < |runs|
    ensures var end := |Flatten(runs[..k])| + |runs[k].text|;
      |Flatten(runs)| >= end && (k + 1 == |runs| ==> |Flatten(runs)| == end)
  {
    FlattenSplit(runs, k);
    hide Flatten;
    if k + 1 == |runs| {
      assert runs[k + 1..] == [];
      FlattenNone();
    }
  }

  lemma FlattenNone()
    ensures Flatten([]) == []
  {
  }

  // What an overwrite keeps of a run, on both sides of the new text.
  lemma OverwriteText(run: Run, off: nat, over: Row)
    requires off <= |run.text|
    ensures var cells := TextCells(run.text, run.cls, run.style);
      Overwrite(cells, off, over) == TextCells(run.text[..off], run.cls, run.style) + over
                                     + TextCells(From(run.text, off + |over|), run.cls, run.style)
  {
    TextCellsSlice(run.text, run.cls, run.style, 0, off);
    if off + |over| <= |run.text| {
      TextCellsSlice(run.text, run.cls, run.style, off + |over|, |run.text|);
    }
  }

  lemma FlattenThree(a: Run, b: Run, c: Run)
    ensures Flatten([a, b, c]) == TextCells(a.text, a.cls, a.style) + TextCells(b.text, b.cls, b.style)
                                  + TextCells(c.text, c.cls, c.style)
  {
    assert [a, b, c] == [a] + [b] + [c];
    FlattenAround([a], [b], [c]);
    FlattenOne(a);
    FlattenOne(b);
    FlattenOne(c);
  }

  /** Writes `text` over one run, `off` characters into it: into the run when the
      colours agree, else as a run of its own, keeping what the text does not
      cover.  The text ends up in run `j` of the result. */
  method SplitRun(run: Run, off: nat, text: seq<CodeUnit>, color: Class, style: Style)
    returns (split: seq<Run>, j: nat)
    requires off <= |run.text|
    ensures j < |split|
    ensures off + |text| >= |run.text| ==> |split| == j + 1
    ensures Flatten(split) == Overwrite(TextCells(run.text, run.cls, run.style), off, TextCells(text, color, style))
  {
    var remainder := From(run.text, off + |text|);
    OverwriteText(run, off, TextCells(text, color, style));
    hide Flatten, Overwrite;
    if run.cls != color || run.style != style {
      var here := Run(text, color, style);
      if off == 0 {
        j := 0;
        split := SplitAtStart(run, here);
      } else {
        j := 1;
        var left, right := run.(text := run.text[..off]), run.(text := remainder);
        split := if remainder != [] then [left, here, right] else [left, here];
        FlattenTwo(left, here);
        FlattenThree(left, here, right);
        if remainder == [] {
          assert TextCells(right.text, right.cls, right.style) == [];
        }
      }
    } else {
      j := 0;
      split := [run.(text := run.text[..off] + text + remainder)];
      FlattenOne(split[0]);
      TextCellsConcat(run.text[..off] + text, remainder, color, style);
      TextCellsConcat(run.text[..off], text, color, style);
    }
  }

  method SplitAtStart(run: Run, here: Run) returns (split: seq<Run>)
    ensures split != []
    ensures |here.text| >= |run.text| ==> |split| == 1
    ensures Flatten(split) == Overwrite(TextCells(run.text, run.cls, run.style), 0,
                                        TextCells(here.text, here.cls, here.style))
  {
    OverwriteText(run, 0, TextCells(here.text, here.cls, here.style));
    if |here.text| >= |run.text| {
      split := [here];
      FlattenOne(here);
    } else {
      split := [here, run.(text := run.text[|here.text|..])];
      FlattenTwo(split[0], split[1]);
    }
  }

  // Overwriting inside the middle of three pieces.
  lemma OverwriteMiddle(a: Row, b: Row, c: Row, x: nat, over: Row)
    requires |a| <= x <= |a| + |b| && x + |over| <= |a| + |b|
    ensures Overwrite(a + b + c, x, over) == a + Overwrite(b, x - |a|, over) + c
  {
  }

  lemma OverwritePast(a: Row, b: Row, c: Row, x: nat, over: Row)
    requires |a| <= x <= |a| + |b| <= x + |over|
    ensures (a + b + c)[..x] + over == a + Overwrite(b, x - |a|, over)
    ensures (a + b + c)[|a| + |b|..] == c
  {
  }

  /** Writes `text` at column `x`, which falls into run `k`.  `del` counts the
      characters of later runs that the text still covers. */
  method PlaceText(runs: seq<Run>, k: nat, xPos: nat, x: nat, text: seq<CodeUnit>, color: Class, style: Style)
    returns (placed: seq<Run>, k': nat, del: int)
    requires k < |runs| && xPos == |Flatten(runs[..k])| <= x <= xPos + |runs[k].text|
    ensures k' < |placed| && x <= |Flatten(runs)|
    ensures del <= 0 ==> Flatten(placed) == Overwrite(Flatten(runs), x, TextCells(text, color, style))
    ensures del > 0 ==>
      && 0 <= x + |text| - del <= |Flatten(runs)|
      && Flatten(placed[..k' + 1]) == Flatten(runs)[..x] + TextCells(text, color, style)
      && Flatten(placed[k' + 1..]) == Flatten(runs)[x + |text| - del..]
  {
    var before, run, after := runs[..k], runs[k], runs[k + 1..];
    FlattenSplit(runs, k);
    del := |text| - |run.text| + x - xPos;
    var split, j := SplitRun(run, x - xPos, text, color, style);
    k' := k + j;
    placed := before + split + after;
    ghost var over := TextCells(text, color, style);
    ghost var cells := TextCells(run.text, run.cls, run.style);
    if del > 0 {
      assert placed[..k' + 1] == before + split && placed[k' + 1..] == after;
      FlattenConcat(before, split);
      OverwritePast(Flatten(before), cells, Flatten(after), x, over);
    } else {
      FlattenAround(before, split, after);
      OverwriteMiddle(Flatten(before), cells, Flatten(after), x, over);
    }
  }

  lemma CutFirst(run: Run, rest: seq<Run>, n: nat)
    requires n <= |run.text|
    ensures |Flatten([run] + rest)| >= n
    ensures Flatten([run.(text := run.text[n..])] + rest) == Flatten([run] + rest)[n..]
  {
    var cut := run.(text := run.text[n..]);
    assert ([run] + rest)[1..] == rest && ([cut] + rest)[1..] == rest;
    TextCellsSlice(run.text, run.cls, run.style, n, |run.text|);
    var cells := TextCells(run.text, run.cls, run.style);
    assert Flatten([run] + rest) == cells + Flatten(rest);
    assert (cells + Flatten(rest))[n..] == cells[n..] + Flatten(rest);
  }

  lemma SkipFirst(run: Run, rest: seq<Run>)
    ensures var all := Flatten([run] + rest);
      |all| == |run.text| + |Flatten(rest)| && Flatten(rest) == all[|run.text|..]
  {
    assert ([run] + rest)[1..] == rest;
  }

  lemma DropTwice(cells: Row, i: nat, j: nat)
    requires i + j <= |cells|
    ensures cells[i..][j..] == cells[i + j..]
  {
  }

  /** Deletes what the text overwrites of the runs after run `k`. */
  method DeleteOverwritten(runs: seq<Run>, k: nat, del: int) returns (kept: seq<Run>)
    requires k < |runs|
    ensures k < |kept| && kept[..k + 1] == runs[..k + 1]
    ensures Flatten(kept[k + 1..]) == if del <= 0 then Flatten(runs[k + 1..])
                                      else if del <= |Flatten(runs[k + 1..])| then Flatten(runs[k + 1..])[del..]
                                      else []
  {
    kept := runs;
    var left := del;
    assert Flatten(runs[k + 1..])[0..] == Flatten(runs[k + 1..]);
    hide Flatten;
    while left > 0 && k + 1 < |kept|
      invariant k < |kept| && kept[..k + 1] == runs[..k + 1]
      invariant left <= del && (del <= 0 ==> left == del && kept == runs)
      invariant del > 0 ==> 0 <= left
      invariant del > 0 ==> var all := Flatten(runs[k + 1..]);
        && del - left <= |all| && Flatten(kept[k + 1..]) == all[del - left..]
      decreases |kept|
    {
      var sibling := kept[k + 1];
      assert kept[k + 1..] == [sibling] + kept[k + 2..];
      ghost var rest := kept[k + 2..];
      SkipFirst(sibling, rest);
      if |sibling.text| <= left {
        DropTwice(Flatten(runs[k + 1..]), del - left, |sibling.text|);
        left := left - |sibling.text|;
        kept := kept[..k + 1] + kept[k + 2..];
        assert kept[k + 1..] == rest;
      } else {
        var cut := sibling.(text := sibling.text[left..]);
        CutFirst(sibling, rest, left);
        assert left <= |Flatten(kept[k + 1..])|;
        DropTwice(Flatten(runs[k + 1..]), del - left, left);
        kept := kept[..k + 1] + [cut] + kept[k + 2..];
        assert kept[k + 1..] == [cut] + rest;
        return;
      }
    }
  }

  /** Joins run `k` with the run after it when both look the same. */
  method MergeNext(runs: seq<Run>, k: nat) returns (merged: seq<Run>)
    requires k < |runs|
    ensures k < |merged| && Flatten(merged) == Flatten(runs)
  {
    merged := runs;
    if k + 1 < |runs| && SameLook(runs[k], runs[k + 1]) {
      var both := runs[k].(text := runs[k].text + runs[k + 1].text);
      merged := runs[..k] + [both] + runs[k + 2..];
      FlattenAround(runs[..k], [both], runs[k + 2..]);
      FlattenAround(runs[..k], [runs[k], runs[k + 1]], runs[k + 2..]);
      assert runs == runs[..k] + [runs[k], runs[k + 1]] + runs[k + 2..];
      FlattenOne(both);
      FlattenTwo(runs[k], runs[k + 1]);
      TextCellsConcat(runs[k].text, runs[k + 1].text, both.cls, both.style);
    }
  }

  predicate WhiteSpace(s: seq<CodeUnit>) {
    forall i :: 0 <= i < |s| ==> s[i] == SPACE || s[i] == NBSP
  }

  /** Drops white runs of default colours from the end of the line; a line of
      nothing else becomes blank. */
  method PruneBlanks(runs: seq<Run>) returns (line: Line)
    requires runs != []
    ensures line.Runs? ==> line.runs != []
    ensures |LineCells(line)| <= |Flatten(runs)|
    ensures Flatten(runs) == LineCells(line) + Fill(|Flatten(runs)| - |LineCells(line)|, BLANK_CELL)
  {
    var kept := runs;
    ghost var all := Flatten(runs);
    while kept[|kept| - 1].cls == DEFAULT_CLASS && kept[|kept| - 1].style == Plain &&
          WhiteSpace(kept[|kept| - 1].text)
      invariant kept != [] && |Flatten(kept)| <= |all|
      invariant all == Flatten(kept) + Fill(|all| - |Flatten(kept)|, BLANK_CELL)
      decreases |kept|
    {
      var last := kept[|kept| - 1];
      FlattenSplit(kept, |kept| - 1);
      assert TextCells(last.text, last.cls, last.style) == Fill(|last.text|, BLANK_CELL);
      if |kept| == 1 {
        assert kept[..0] == [] && all == Fill(|all|, BLANK_CELL);
        return Blank;
      }
      kept := kept[..|kept| - 1];
    }
    line := Runs(kept);
  }

  lemma OverwriteView(cells: Row, x: nat, over: Row, width: nat)
    requires x + |over| <= width
    ensures Pad(Overwrite(Reach(cells, x), x, over), width) == Splice(Pad(cells, width), x, over)
  {
    SpliceAt(Pad(cells, width), x, over);
  }

  lemma PadTrailing(cells: Row, n: nat, width: nat)
    ensures Pad(cells + Fill(n, BLANK_CELL), width) == Pad(cells, width)
  {
  }

  // Cutting the overwritten `del` cells off the rest completes the overwrite.
  lemma OverwriteByDeletion(cells: Row, x: nat, over: Row, del: int)
    requires 0 < del && x <= |cells| && 0 <= x + |over| - del <= |cells|
    ensures var rest := cells[x + |over| - del..];
      Overwrite(cells, x, over) == cells[..x] + over + (if del <= |rest| then rest[del..] else [])
  {
  }

  /** The edit up to pruning: exactly the columns of `text` are overwritten. */
  method WriteRuns(runs0: seq<Run>, x: nat, text: seq<CodeUnit>, color: Class, style: Style) returns (runs: seq<Run>)
    requires runs0 != []
    ensures runs != []
    ensures Flatten(runs) == Overwrite(Reach(Flatten(runs0), x), x, TextCells(text, color, style))
  {
    hide Flatten, TextCells, Overwrite, Reach;
    var k, xPos := Locate(runs0, x);
    runs, k, xPos := PadRun(runs0, k, xPos, x);
    ghost var reach, over := Flatten(runs), TextCells(text, color, style);
    var placed, k', del := PlaceText(runs, k, xPos, x, text, color, style);
    runs := DeleteOverwritten(placed, k', del);
    assert Flatten(runs) == Overwrite(reach, x, over) by {
      assert runs == runs[..k' + 1] + runs[k' + 1..] && placed == placed[..k' + 1] + placed[k' + 1..];
      FlattenConcat(runs[..k' + 1], runs[k' + 1..]);
      FlattenConcat(placed[..k' + 1], placed[k' + 1..]);
      if del > 0 {
        OverwriteByDeletion(reach, x, over, del);
      }
    }
    runs := MergeNext(runs, k');
    if k' > 0 {
      runs := MergeNext(runs, k' - 1);
    }
  }

  /** The whole edit: `text` is on the line from column `x` on, and every other
      column shows what it showed. */
  method PutText(line: Line, x: nat, text: seq<CodeUnit>, color: Class, style: Style, ghost width: nat)
    returns (edited: Line)
    requires text != [] && x + |text| <= width
    requires line.Runs? ==> line.runs != []
    ensures edited.Runs? ==> edited.runs != []
    ensures LineLength(edited) <= if LineLength(line) <= x + |text| then x + |text| else LineLength(line)
    ensures View(edited, width) == Splice(View(line, width), x, TextCells(text, color, style))
  {
    var runs := if line.Blank? then [Run([], NoClass, Plain)] else line.runs;
    assert Flatten(runs) == LineCells(line);
    runs := WriteRuns(runs, x, text, color, style);
    ghost var final := Flatten(runs);
    edited := PruneBlanks(runs);
    OverwriteView(LineCells(line), x, TextCells(text, color, style), width);
    PadTrailing(LineCells(edited), |final| - |LineCells(edited)|, width);
    ViewIsPad(line, width);
    ViewIsPad(edited, width);
    if edited.Runs? {
      FlattenLength(edited.runs);
    }
    if line.Runs? {
      FlattenLength(line.runs);
    }
  }
}
