/** demo.js: the lines of a BASIC program, sorted by their numbers. */
module Program {
  import opened Bytes

  // A program line; `text` stands for its tokens.
  datatype Line = Line(number: nat, text: string)

  predicate Sorted(p: seq<Line>) {
    forall i, j :: 0 <= i < j < |p| ==> p[i].number < p[j].number
  }

  /** The text of a line, by its number. */
  function Text(p: seq<Line>, number: nat): Option<string> {
    if p == [] then None
    else if p[|p| - 1].number == number then Some(p[|p| - 1].text)
    else Text(p[..|p| - 1], number)
  }

  lemma {:induction false} TextAt(p: seq<Line>, i: nat)
    requires i < |p| && Sorted(p)
    ensures Text(p, p[i].number) == Some(p[i].text)
  {
    if i < |p| - 1 {
      TextAt(p[..|p| - 1], i);
    }
  }

  lemma {:induction false} TextNone(p: seq<Line>, number: nat)
    ensures Text(p, number) == None <==> forall i :: 0 <= i < |p| ==> p[i].number != number
  {
    if p != [] {
      TextNone(p[..|p| - 1], number);
      assert forall i :: 0 <= i < |p| - 1 ==> p[i] == p[..|p| - 1][i];
    }
  }

  lemma FoundText(p: seq<Line>, q: seq<Line>, number: nat)
    requires Sorted(p) && Sorted(q) && Text(p, number) != None
    requires forall line :: line in p && line.number == number ==> line in q
    ensures Text(p, number) == Text(q, number)
  {
    TextNone(p, number);
    var i :| 0 <= i < |p| && p[i].number == number;
    assert p[i] in q;
    var j :| 0 <= j < |q| && q[j] == p[i];
    TextAt(p, i);
    TextAt(q, j);
  }

  // Programs are equal where they have the same line, or none.
  lemma SameText(p: seq<Line>, q: seq<Line>, number: nat)
    requires Sorted(p) && Sorted(q)
    requires forall line :: line in p && line.number == number ==> line in q
    requires forall line :: line in q && line.number == number ==> line in p
    ensures Text(p, number) == Text(q, number)
  {
    if Text(p, number) != None {
      FoundText(p, q, number);
    } else if Text(q, number) != None {
      FoundText(q, p, number);
    }
  }

  lemma DeletedLines(p: seq<Line>, i: nat, x: Line)
    requires Sorted(p) && i < |p|
    ensures var q := p[..i] + p[i + 1..]; Sorted(q) && (x in q <==> x in p && x != p[i])
  {
    var q := p[..i] + p[i + 1..];
    assert p == p[..i] + [p[i]] + p[i + 1..];
    assert forall j :: 0 <= j < |q| ==> q[j] == if j < i then p[j] else p[j + 1];
  }

  lemma InsertedLines(p: seq<Line>, l: nat, line: Line, x: Line)
    requires l <= |p|
    ensures x in p[..l] + [line] + p[l..] <==> x in p || x == line
  {
    assert p == p[..l] + p[l..];
  }

  lemma InsertedSorted(p: seq<Line>, l: nat, line: Line)
    requires Sorted(p) && l <= |p|
    requires forall i :: 0 <= i < l ==> p[i].number < line.number
    requires forall i :: l <= i < |p| ==> line.number < p[i].number
    ensures var q := p[..l] + [line] + p[l..]; Sorted(q) && q[l] == line
  {
    var q := p[..l] + [line] + p[l..];
    forall j, j' | 0 <= j < j' < |q|
      ensures q[j].number < q[j'].number
    {
      assert q[j] == if j < l then p[j] else if j == l then line else p[j - 1];
      assert q[j'] == if j' < l then p[j'] else if j' == l then line else p[j' - 1];
    }
  }

  lemma Deleted(p: seq<Line>, i: nat, k: nat)
    requires Sorted(p) && i < |p|
    ensures var q := p[..i] + p[i + 1..];
      Sorted(q) && Text(q, k) == if k == p[i].number then None else Text(p, k)
  {
    hide Text;
    var q := p[..i] + p[i + 1..];
    forall x { DeletedLines(p, i, x); }
    if k == p[i].number {
      forall j | 0 <= j < |q|
        ensures q[j].number != k
      {
        assert q[j] == p[if j < i then j else j + 1];
      }
      TextNone(q, k);
    } else {
      SameText(p, q, k);
    }
  }

  lemma Inserted(p: seq<Line>, l: nat, line: Line, k: nat)
    requires Sorted(p) && l <= |p|
    requires forall i :: 0 <= i < l ==> p[i].number < line.number
    requires forall i :: l <= i < |p| ==> line.number < p[i].number
    ensures var q := p[..l] + [line] + p[l..];
      Sorted(q) && Text(q, k) == if k == line.number then Some(line.text) else Text(p, k)
  {
    hide Text, Sorted;
    var q := p[..l] + [line] + p[l..];
    InsertedSorted(p, l, line);
    if k == line.number {
      TextAt(q, l);
    } else {
      forall x { InsertedLines(p, l, line, x); }
      SameText(p, q, k);
    }
  }

  lemma Replaced(p: seq<Line>, i: nat, text: string, k: nat)
    requires Sorted(p) && i < |p|
    ensures var q := p[i := Line(p[i].number, text)];
      Sorted(q) && Text(q, k) == if k == p[i].number then Some(text) else Text(p, k)
  {
    var q := p[i := Line(p[i].number, text)];
    if k == p[i].number {
      TextAt(q, i);
    } else {
      forall line | line in p && line.number == k
        ensures line in q
      {
        var j :| 0 <= j < |p| && p[j] == line;
        assert q[j] == line;
      }
      SameText(p, q, k);
    }
  }

  class Store {
    var program: seq<Line>

    constructor ()
      ensures program == []
    {
      program := [];
    }

    /** Where a line is, or else, as -l - 1, the position l where it belongs. */
    method FindLine(lineNumber: nat) returns (index: int)
      requires Sorted(program)
      ensures if index >= 0 then index < |program| && program[index].number == lineNumber
              else var l := -index - 1;
                && l <= |program| && (forall i :: 0 <= i < l ==> program[i].number < lineNumber)
                && forall i :: l <= i < |program| ==> lineNumber < program[i].number
    {
      var l, h := 0, |program|;
      while h > l
        invariant 0 <= l <= h <= |program|
        invariant forall i :: 0 <= i < l ==> program[i].number < lineNumber
        invariant forall i :: h <= i < |program| ==> lineNumber < program[i].number
      {
        var m := (l + h) / 2;
        var n := program[m].number;
        if n == lineNumber {
          return m;
        } else if n > lineNumber {
          h := m;
        } else {
          l := m + 1;
        }
      }
      return -l - 1;
    }

    /** The part of doCommand for numbered lines: a line with text is stored, and one
        without deletes the line of its number, unless that is the first one. */
    method Enter(lineNumber: nat, text: Option<string>)
      requires Sorted(program)
      modifies this
      ensures Sorted(program)
      ensures forall k :: k != lineNumber ==> Text(program, k) == Text(old(program), k)
      ensures text.Some? ==> Text(program, lineNumber) == text
      ensures text == None ==>
        Text(program, lineNumber)
        == if old(program) != [] && old(program)[0].number == lineNumber then Text(old(program), lineNumber) else None
    {
      hide Text;
      ghost var p := program;
      var index := FindLine(lineNumber);
      if text == None {
        if index > 0 {
          Deleted(p, index, lineNumber);
          forall k ensures Text(p[..index] + p[index + 1..], k) == if k == lineNumber then None else Text(p, k) {
            Deleted(p, index, k);
          }
          program := program[..index] + program[index + 1..];
        } else {
          TextNone(program, lineNumber);
        }
      } else {
        if index >= 0 {
          ghost var q := p[index := Line(lineNumber, text.value)];
          Replaced(p, index, text.value, lineNumber);
          forall k ensures Text(q, k) == if k == lineNumber then text else Text(p, k) {
            Replaced(p, index, text.value, k);
          }
          program := program[index := Line(lineNumber, text.value)];
        } else {
          var l := -index - 1;
          ghost var q := p[..l] + [Line(lineNumber, text.value)] + p[l..];
          Inserted(p, l, Line(lineNumber, text.value), lineNumber);
          forall k ensures Text(q, k) == if k == lineNumber then text else Text(p, k) {
            Inserted(p, l, Line(lineNumber, text.value), k);
          }
          program := program[..l] + [Line(lineNumber, text.value)] + program[l..];
        }
      }
    }
  }
}
