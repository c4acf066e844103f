/** httpconnection.c: how the command and header lines of requests without payload
    are put together from reads of any size.  Bytes left over from earlier reads
    are kept in `partial`, and addressed by negative offsets. */
module HttpLines {
  import opened Bytes

  const NL: Byte := 10
  const COLON: Byte := 58
  const BLANK: Byte := 32
  const TAB: Byte := 9

  /** The lines handed to the parser, and the start of the next one. */
  datatype Reading = Reading(lines: seq<seq<Byte>>, partial: seq<Byte>, closed: bool)

  // The parser: what it makes of the lines so far, the newest one last.  When it
  // does not go on, the connection is closed.
  type Parser = seq<seq<Byte>> -> bool

  function HandOver(parse: Parser, r: Reading): Reading {
    var lines := r.lines + [r.partial];
    Reading(lines, [], !parse(lines))
  }

  /** One byte of the stream.  A line without any byte is not handed over. */
  function Take(parse: Parser, r: Reading, b: Byte): Reading {
    if r.closed then r
    else if b != NL then r.(partial := r.partial + [b])
    else NextLine(parse, r)
  }

  function Read(parse: Parser, r: Reading, s: seq<Byte>): Reading
    decreases |s|
  {
    if s == [] then r else Read(parse, Take(parse, r, s[0]), s[1..])
  }

  // The other side closed the stream: an unfinished line counts.
  function Finish(parse: Parser, r: Reading): Reading {
    if r.closed then r else NextLine(parse, r).(closed := true)
  }

  // The end of a line.
  function NextLine(parse: Parser, r: Reading): Reading {
    if r.partial == [] then r else HandOver(parse, r)
  }

  /** The stream may be cut anywhere. */
  lemma {:induction false} ReadConcat(parse: Parser, r: Reading, a: seq<Byte>, b: seq<Byte>)
    ensures Read(parse, r, a + b) == Read(parse, Read(parse, r, a), b)
    decreases |a|
  {
    hide Take;
    if a == [] {
      assert a + b == b;
    } else {
      assert (a + b)[1..] == a[1..] + b;
      ReadConcat(parse, Take(parse, r, a[0]), a[1..], b);
    }
  }

  lemma {:induction false} ReadNoLine(parse: Parser, r: Reading, s: seq<Byte>)
    requires NL !in s && !r.closed
    ensures Read(parse, r, s) == r.(partial := r.partial + s)
    decreases |s|
  {
    if s == [] {
      assert r.partial + s == r.partial;
    } else {
      ReadNoLine(parse, Take(parse, r, s[0]), s[1..]);
      assert r.partial + [s[0]] + s[1..] == r.partial + s;
    }
  }

  lemma {:induction false} ReadClosed(parse: Parser, r: Reading, s: seq<Byte>)
    requires r.closed
    ensures Read(parse, r, s) == r
    decreases |s|
  {
    if s != [] {
      ReadClosed(parse, r, s[1..]);
    }
  }

  // A whole line at the head of the stream.
  lemma ReadLine(parse: Parser, r: Reading, line: seq<Byte>, rest: seq<Byte>)
    requires NL !in line && !r.closed && r.partial == []
    ensures Read(parse, r, line + [NL] + rest)
            == Read(parse, NextLine(parse, r.(partial := line)), rest)
  {
    hide Read;
    ReadConcat(parse, r, line + [NL], rest);
    ReadConcat(parse, r, line, [NL]);
    ReadNoLine(parse, r, line);
    ReadOne(parse, r.(partial := r.partial + line), NL);
    assert r.partial + line == line;
  }

  lemma ReadOne(parse: Parser, r: Reading, b: Byte)
    ensures Read(parse, r, [b]) == Take(parse, r, b)
  {
    assert [b][1..] == [];
  }

  // Positions in a line: of the first colon, the first blank, and the last blank
  // after it; -1 where there is none.
  datatype Marks = Marks(colon: int, firstSpace: int, lastSpace: int)

  predicate IsBlank(b: Byte) {
    b == BLANK || b == TAB
  }

  ghost predicate MarksOf(m: Marks, line: seq<Byte>) {
    && -1 <= m.colon < |line| && -1 <= m.firstSpace < |line| && -1 <= m.lastSpace < |line|
    && (if m.colon < 0 then COLON !in line else line[m.colon] == COLON && COLON !in line[..m.colon])
    && (if m.firstSpace < 0 then m.lastSpace < 0 && forall i :: 0 <= i < |line| ==> !IsBlank(line[i])
        else IsBlank(line[m.firstSpace]) && forall i :: 0 <= i < m.firstSpace ==> !IsBlank(line[i]))
    && (m.lastSpace >= 0 ==> m.firstSpace < m.lastSpace && IsBlank(line[m.lastSpace]))
    && forall i :: m.firstSpace < i < |line| && m.lastSpace < i && m.firstSpace >= 0 ==> !IsBlank(line[i])
  }

  class HttpConnection {
    const parse: Parser
    var partial: seq<Byte>
    var partialLength: int
    var closed: bool
    var lines: seq<seq<Byte>>    // what the parser was handed

    ghost predicate Tracked()
      reads this
    {
      partialLength == |partial| && NL !in partial
    }

    ghost predicate Valid()
      reads this
    {
      Tracked() && (closed ==> partial == [])
    }

    ghost function Abs(): Reading
      reads this
    {
      Reading(lines, partial, closed)
    }

    constructor (parser: Parser)
      ensures Valid() && parse == parser && Abs() == Reading([], [], false)
    {
      parse, partial, partialLength, closed, lines := parser, [], 0, false, [];
    }

    // The stream from `offset` on: negative offsets are into `partial`.
    ghost function Rest(buf: seq<Byte>, offset: int): seq<Byte>
      requires Tracked() && -partialLength <= offset <= |buf|
      reads this
    {
      (partial + buf)[partialLength + offset..]
    }

    /** The next byte of the stream, or -1. */
    method GetChar(buf: seq<Byte>, offset: int) returns (ch: int, next: int)
      requires Tracked() && -partialLength <= offset <= |buf|
      ensures if offset == |buf| then ch == -1 && next == offset
              else next == offset + 1 && ch == Rest(buf, offset)[0] && Rest(buf, next) == Rest(buf, offset)[1..]
    {
      if offset < 0 {
        return partial[partialLength + offset], offset + 1;
      } else if offset < |buf| {
        return buf[offset], offset + 1;
      } else {
        return -1, offset;
      }
    }

    // A byte of the line that is not its end.
    method Mark(marks: Marks, lineLength: int, ch: Byte, ghost line: seq<Byte>) returns (m: Marks)
      requires |line| == lineLength && MarksOf(marks, line)
      ensures MarksOf(m, line + [ch])
    {
      m := marks;
      if ch == COLON {
        if m.colon < 0 {
          m := m.(colon := lineLength);
        }
      } else if IsBlank(ch) {
        if m.firstSpace < 0 {
          m := m.(firstSpace := lineLength);
        } else {
          m := m.(lastSpace := lineLength);
        }
      }
    }

    /** Looks for the end of the line that starts at `offset`. */
    method ScanLine(buf: seq<Byte>, offset: int) returns (lineLength: int, marks: Marks, fullLine: bool)
      requires Tracked() && -partialLength <= offset <= |buf|
      ensures var rest := Rest(buf, offset);
        && 0 <= lineLength <= |rest| && NL !in rest[..lineLength] && MarksOf(marks, rest[..lineLength])
        && (if fullLine then lineLength < |rest| && rest[lineLength] == NL else lineLength == |rest|)
    {
      ghost var rest := Rest(buf, offset);
      lineLength, marks, fullLine := 0, Marks(-1, -1, -1), true;
      var i := offset;
      while true
        invariant i == offset + lineLength && 0 <= lineLength <= |rest| && fullLine
        invariant Rest(buf, i) == rest[lineLength..]
        invariant NL !in rest[..lineLength] && MarksOf(marks, rest[..lineLength])
        decreases |rest| - lineLength
      {
        var ch;
        ch, i := GetChar(buf, i);
        if ch == NL {
          break;
        } else if ch == -1 {
          fullLine := false;
          break;
        }
        marks := Mark(marks, lineLength, ch, rest[..lineLength]);
        hide MarksOf;
        assert rest[lineLength] == ch;
        assert rest[..lineLength + 1] == rest[..lineLength] + [ch];
        lineLength := lineLength + 1;
      }
    }

    // The next bytes of the stream, read one by one.
    method GetChars(buf: seq<Byte>, offset: int, count: int) returns (s: seq<Byte>)
      requires Tracked() && -partialLength <= offset && 0 <= count && offset + count <= |buf|
      ensures s == Rest(buf, offset)[..count]
    {
      var i := offset;
      s := [];
      ghost var rest := Rest(buf, offset);
      while |s| < count
        invariant i == offset + |s| && |s| <= count && s == rest[..|s|]
        invariant Rest(buf, i) == rest[|s|..]
      {
        var ch;
        ch, i := GetChar(buf, i);
        s := s + [ch];
      }
    }

    // Reads a line for the parser.
    method ParseLine(buf: seq<Byte>, offset: int, lineLength: int) returns (ok: bool)
      requires Tracked() && -partialLength <= offset && 0 <= lineLength && offset + lineLength <= |buf|
      modifies `closed, `lines
      ensures lines == old(lines + [Rest(buf, offset)[..lineLength]]) && ok == parse(lines)
      ensures closed == (old(closed) || !ok)
    {
      var line := GetChars(buf, offset, lineLength);
      lines := lines + [line];
      ok := parse(lines);
      if !ok {
        closed := true;
      }
    }

    // What has been read when the stream is consumed up to `offset`.
    ghost function Left(offset: int): Reading
      reads this
    {
      Reading(lines, if closed || offset >= 0 then [] else partial, closed)
    }

    // Keeps the start of a line for the next read.
    method PushBack(buf: seq<Byte>, offset: int, pushBack: int)
      requires Tracked() && -partialLength <= offset <= |buf| && pushBack == |Rest(buf, offset)| > 0
      requires NL !in Rest(buf, offset) && (offset < 0 ==> offset == -partialLength)
      modifies `partial, `partialLength
      ensures Tracked() && partial == old(Rest(buf, offset))
    {
      assert offset + pushBack == |buf|;
      ghost var rest := Rest(buf, offset);
      assert rest[..pushBack] == rest;
      if offset >= 0 {
        assert rest == buf[offset..];
        partial := buf[offset..];
      } else if pushBack != partialLength {
        partial := GetChars(buf, offset, pushBack);
      } else {
        assert buf == [] && Rest(buf, offset) == partial;
      }
      partialLength := pushBack;
    }

    // A line that is complete.
    method TakeLine(buf: seq<Byte>, offset0: int, lineLength: int) returns (offset: int, stop: bool)
      requires Tracked() && !closed && -partialLength <= offset0 && 0 <= lineLength && offset0 + lineLength < |buf|
      requires offset0 < 0 ==> offset0 == -partialLength
      requires var rest := Rest(buf, offset0); NL !in rest[..lineLength] && rest[lineLength] == NL
      modifies `closed, `lines
      ensures offset < 0 ==> stop && offset == -partialLength
      ensures var before := Read(parse, old(Reading(lines, [], false)), old(Rest(buf, offset0)));
        if stop then Left(offset) == before
        else !closed && offset0 < offset <= |buf| && before == Read(parse, Reading(lines, [], false), Rest(buf, offset))
    {
      ghost var r := Reading(lines, [], false);
      ghost var rest := Rest(buf, offset0);
      ghost var line, more := rest[..lineLength], rest[lineLength + 1..];
      assert rest == line + [NL] + more;
      ReadLine(parse, r, line, more);
      if lineLength != 0 {
        var ok := ParseLine(buf, offset0, lineLength);
        if !ok {
          ReadClosed(parse, Reading(lines, [], true), more);
          return offset0, true;
        }
      }
      offset := offset0 + lineLength + 1;
      assert Rest(buf, offset) == more;
      stop := offset >= |buf|;
    }

    /** One line of the stream, or its unfinished rest. */
    method NextStep(buf: seq<Byte>, offset0: int) returns (offset: int, stop: bool)
      requires Tracked() && !closed && -partialLength <= offset0 <= |buf| && (offset0 < 0 ==> offset0 == -partialLength)
      modifies this
      ensures Tracked() && (offset < 0 ==> stop && offset == -partialLength)
      ensures var before := Read(parse, old(Reading(lines, [], false)), old(Rest(buf, offset0)));
        if stop then Left(offset) == before
        else !closed && offset0 < offset <= |buf| && before == Read(parse, Reading(lines, [], false), Rest(buf, offset))
    {
      hide Read;
      var lineLength, marks, fullLine := ScanLine(buf, offset0);
      if fullLine {
        offset, stop := TakeLine(buf, offset0, lineLength);
      } else {
        ghost var rest := Rest(buf, offset0);
        assert rest[..lineLength] == rest;
        ReadNoLine(parse, Reading(lines, [], false), rest);
        assert [] + rest == rest;
        offset, stop := offset0, true;
        if lineLength != 0 {
          PushBack(buf, offset, lineLength);
          offset := -lineLength;
        }
      }
    }

    /** What arrived on the connection, however much it is. */
    method Receive(buf: seq<Byte>)
      requires Valid() && !closed && |buf| > 0
      modifies this
      ensures Valid() && Abs() == Read(parse, old(Abs()), buf)
    {
      ghost var before := Abs();
      var offset := -partialLength;
      assert Rest(buf, offset) == partial + buf;
      ReadNoLine(parse, Reading(lines, [], false), partial);
      assert [] + partial == partial;
      ReadConcat(parse, Reading(lines, [], false), partial, buf);
      var stop := false;
      while !stop
        invariant Tracked() && (offset < 0 ==> offset == -partialLength)
        invariant if stop then Left(offset) == Read(parse, before, buf)
                  else !closed && offset <= |buf| && Read(parse, before, buf) == Read(parse, Reading(lines, [], false), Rest(buf, offset))
        decreases !stop, |buf| - offset
      {
        offset, stop := NextStep(buf, offset);
      }
      if closed || offset >= 0 {
        partial := [];
        partialLength := 0;
      }
    }

    /** The end of the stream. */
    method ReceiveEnd()
      requires Valid() && !closed
      modifies this
      ensures Valid() && Abs() == Finish(parse, old(Abs()))
    {
      closed := true;
      if partial != [] {
        var lineLength, marks, fullLine := ScanLine([], -partialLength);
        assert Rest([], -partialLength) == partial;
        var ok := ParseLine([], -partialLength, lineLength);
        partial := [];
        partialLength := 0;
      }
    }
  }

  // ---- What the lines are ----

  predicate IsLine(line: seq<Byte>) {
    line != [] && NL !in line
  }

  // The stream without the ends of empty lines; `start` says whether it starts at
  // the start of a line.
  function Squeezed(s: seq<Byte>, start: bool): seq<Byte> {
    if s == [] then []
    else if start && s[0] == NL then Squeezed(s[1..], true)
    else [s[0]] + Squeezed(s[1..], s[0] == NL)
  }

  function Glue(lines: seq<seq<Byte>>): seq<Byte> {
    if lines == [] then [] else Glue(lines[..|lines| - 1]) + lines[|lines| - 1] + [NL]
  }

  // How many bytes are read before the parser stops it.
  function Used(parse: Parser, r: Reading, s: seq<Byte>): (k: nat)
    ensures k <= |s|
    decreases |s|
  {
    if s == [] || r.closed then 0 else 1 + Used(parse, Take(parse, r, s[0]), s[1..])
  }

  // What is left of one byte: the end of an empty line goes.
  function Piece(b: Byte, start: bool): seq<Byte> {
    if start && b == NL then [] else [b]
  }

  lemma UsedNext(s: seq<Byte>, k: nat, start: bool)
    requires s != [] && k <= |s| - 1
    ensures Squeezed(s[..1 + k], start) == Piece(s[0], start) + Squeezed(s[1..][..k], s[0] == NL)
  {
    assert s[..1 + k][1..] == s[1..][..k];
  }

  lemma TakeGlues(parse: Parser, r: Reading, b: Byte)
    requires !r.closed && NL !in r.partial && forall i :: 0 <= i < |r.lines| ==> IsLine(r.lines[i])
    ensures var t := Take(parse, r, b);
      && Glue(t.lines) + t.partial == Glue(r.lines) + r.partial + Piece(b, r.partial == [])
      && (t.partial == [] <==> b == NL)
      && NL !in t.partial && forall i :: 0 <= i < |t.lines| ==> IsLine(t.lines[i])
  {
    assert (r.lines + [r.partial])[..|r.lines|] == r.lines;
  }

  lemma Assoc(a: seq<Byte>, b: seq<Byte>, c: seq<Byte>)
    ensures a + b + c == a + (b + c)
  {
  }

  /** The lines and the unfinished one are the bytes that were read, but for empty lines:
      none is lost, moved or read twice.  Unless the parser stops it, they are all read. */
  lemma {:induction false} LinesGlue(parse: Parser, r: Reading, s: seq<Byte>)
    requires NL !in r.partial && forall i :: 0 <= i < |r.lines| ==> IsLine(r.lines[i])
    ensures var r1, k := Read(parse, r, s), Used(parse, r, s);
      && Glue(r1.lines) + r1.partial == Glue(r.lines) + r.partial + Squeezed(s[..k], r.partial == [])
      && NL !in r1.partial && (forall i :: 0 <= i < |r1.lines| ==> IsLine(r1.lines[i]))
      && (!r1.closed ==> k == |s|)
    decreases |s|
  {
    if r.closed {
      ReadClosed(parse, r, s);
    } else if s != [] {
      hide Take, Glue, Squeezed, Piece;
      TakeGlues(parse, r, s[0]);
      LinesGlue(parse, Take(parse, r, s[0]), s[1..]);
      var k := Used(parse, Take(parse, r, s[0]), s[1..]);
      UsedNext(s, k, r.partial == []);
      Assoc(Glue(r.lines) + r.partial, Piece(s[0], r.partial == []), Squeezed(s[1..][..k], s[0] == NL));
    }
  }

  lemma ReadLast(parse: Parser, r: Reading, s: seq<Byte>)
    requires s != []
    ensures Read(parse, r, s) == Take(parse, Read(parse, r, s[..|s| - 1]), s[|s| - 1])
  {
    hide Take;
    var init, b := s[..|s| - 1], s[|s| - 1];
    assert s == init + [b];
    ReadConcat(parse, r, init, [b]);
    ReadOne(parse, Read(parse, r, init), b);
  }

  /** The end of the stream ends its last line: unless the parser stopped it before, the
      lines are all of the stream, but for empty lines, and what follows the last end of
      a line is one of them. */
  lemma EndGlues(parse: Parser, r: Reading, s: seq<Byte>)
    requires !Read(parse, r, s).closed && NL !in r.partial && forall i :: 0 <= i < |r.lines| ==> IsLine(r.lines[i])
    ensures var r1 := Finish(parse, Read(parse, r, s));
      var ended := if s == [] then r.partial == [] else s[|s| - 1] == NL;
      && r1.closed && r1.partial == []
      && Glue(r1.lines) == Glue(r.lines) + r.partial + Squeezed(s, r.partial == []) + if ended then [] else [NL]
  {
    hide Squeezed;
    LinesGlue(parse, r, s);
    assert s[..|s|] == s;
    var r0 := Read(parse, r, s);
    if s != [] {
      ReadLast(parse, r, s);
    }
    hide Read;
    if r0.partial != [] {
      assert (r0.lines + [r0.partial])[..|r0.lines|] == r0.lines;
    }
  }

  // The parser went on with all lines but perhaps the newest.
  predicate Unrefused(parse: Parser, lines: seq<seq<Byte>>) {
    forall i :: 0 < i < |lines| ==> parse(lines[..i])
  }

  // The connection is open exactly if it went on with that one, too.
  predicate Heeded(parse: Parser, r: Reading) {
    && Unrefused(parse, r.lines)
    && (r.closed <==> r.lines != [] && !parse(r.lines))
  }

  /** Once the parser does not go on with a line, it is not handed any other, neither
      from the stream nor at its end. */
  lemma {:induction false} RefusalStops(parse: Parser, r: Reading, s: seq<Byte>)
    requires Heeded(parse, r)
    ensures Heeded(parse, Read(parse, r, s))
    ensures Unrefused(parse, Finish(parse, Read(parse, r, s)).lines)
    decreases |s|
  {
    if s == [] {
      if !r.closed {
        HandOverHeeds(parse, r);
      }
    } else {
      TakeHeeds(parse, r, s[0]);
      RefusalStops(parse, Take(parse, r, s[0]), s[1..]);
    }
  }

  lemma HandOverHeeds(parse: Parser, r: Reading)
    requires Heeded(parse, r) && !r.closed
    ensures Heeded(parse, HandOver(parse, r))
  {
    var lines := r.lines + [r.partial];
    forall i | 0 < i < |lines|
      ensures parse(lines[..i])
    {
      assert lines[..i] == if i < |r.lines| then r.lines[..i] else r.lines;
    }
  }

  lemma TakeHeeds(parse: Parser, r: Reading, b: Byte)
    requires Heeded(parse, r)
    ensures Heeded(parse, Take(parse, r, b))
  {
    if !r.closed {
      HandOverHeeds(parse, r);
    }
  }
}
