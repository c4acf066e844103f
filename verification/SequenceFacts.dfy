/** Control sequences as they are written and read: numbers, cursor addresses and
    the answer to a cursor request. */
module SequenceFacts {
  import opened Cells
  import opened TermSpec
  import opened TermFacts

  /** A number in decimal digits. */
  function Decimal(n: nat): (s: seq<CodeUnit>)
    ensures |s| > 0 && forall i :: 0 <= i < |s| ==> IsDigit(s[i])
  {
    if n < 10 then [0x30 + n] else Decimal(n / 10) + [0x30 + n % 10]
  }

  // The state after reading an ASCII character: half-read byte sequences are
  // given up.
  function Heard(t: Term): Term {
    if t.modes.utf then t.(utf := t.utf.(count := 0)) else t
  }

  // A character that is part of a control sequence.
  lemma HearControl(c: Config, t: Term, ch: CodeUnit, nested: bool)
    requires Sound(c, t) && ch <= 0x7F && (t.parser.esc != Normal || ch == 0x1B) && Control(c, Heard(t), ch).1 == []
    ensures Step(c, t, ch, nested) == Control(c, Heard(t), ch).0
  {
    hide Control;
    assert 27 in CTRL_ALWAYS && 27 in CTRL_ACTION;
  }

  lemma ReadDigit(c: Config, t: Term, ch: CodeUnit, nested: bool)
    requires Sound(c, t) && !t.modes.printing && t.parser.esc == GetPars && IsDigit(ch)
    ensures Step(c, t, ch, nested) == Heard(t).(parser := Digit(t.parser, ch))
  {
    hide Step, CsiEnd, AfterCsi, AfterEscape, SingleShift, InShortEscape, ControlMove, ControlState;
    assert Control(c, Heard(t), ch) == (Heard(t).(parser := Digit(t.parser, ch)), []);
    HearControl(c, t, ch, nested);
  }

  /** A parameter of a control sequence is read back as the number it was written
      for, however large. */
  lemma {:induction false} ReadNumber(c: Config, t: Term, n: nat, nested: bool)
    requires Sound(c, t) && !t.modes.printing && t.parser.esc == GetPars && t.parser.npar !in t.parser.par
    ensures Process(c, t, Decimal(n), nested)
            == Heard(t).(parser := t.parser.(par := t.parser.par[t.parser.npar := n]))
    decreases n
  {
    hide Step, Sound;
    var s := Decimal(n);
    if n < 10 {
      ProcessOne(c, t, s[0], nested);
      ReadDigit(c, t, s[0], nested);
    } else {
      ReadNumber(c, t, n / 10, nested);
      var t1 := Process(c, t, Decimal(n / 10), nested);
      ReadDigit(c, t1, s[|s| - 1], nested);
      assert s[..|s| - 1] == Decimal(n / 10);
      assert t.parser.par[t.parser.npar := n / 10][t.parser.npar := n] == t.parser.par[t.parser.npar := n];
    }
  }

  lemma ProcessOne(c: Config, t: Term, ch: CodeUnit, nested: bool)
    requires Sound(c, t)
    ensures Process(c, t, [ch], nested) == Step(c, t, ch, nested)
  {
    hide Step, Sound;
    assert [ch][..0] == [];
  }

  lemma ReadEscape(c: Config, t: Term, nested: bool)
    requires Sound(c, t) && !t.modes.printing
    ensures Step(c, t, 0x1B, nested) == WithEsc(Heard(t), Escape)
  {
    hide Step, InEscape, ControlMove;
    HearControl(c, t, 0x1B, nested);
  }

  lemma ReadBracket(c: Config, t: Term, nested: bool)
    requires Sound(c, t) && !t.modes.printing && t.parser.esc == Escape
    ensures Step(c, t, 0x5B, nested) == WithEsc(Heard(t), Square)
  {
    hide Step, AfterCsi, CsiParameter, SingleShift, InShortEscape, ControlMove, ControlState;
    HearControl(c, t, 0x5B, nested);
  }

  // What "CSI" leaves behind, whatever was being read before.
  lemma ReadCsi(c: Config, t: Term, nested: bool)
    requires Sound(c, t) && !t.modes.printing
    ensures Process(c, t, [0x1B, 0x5B], nested) == WithEsc(Heard(t), Square)
  {
    ReadEscape(c, t, nested);
    ReadBracket(c, WithEsc(Heard(t), Escape), nested);
    hide Step, Sound;
    ProcessOne(c, t, 0x1B, nested);
    assert [0x1B, 0x5B][..1] == [0x1B];
  }

  function Collecting(t: Term): Term {
    t.(parser := Parser(GetPars, 0, map[], false))
  }

  lemma FirstDigit(c: Config, t: Term, ch: CodeUnit, nested: bool)
    requires Sound(c, t) && !t.modes.printing && t.parser.esc == Square && IsDigit(ch)
    ensures Step(c, t, ch, nested) == Step(c, Collecting(t), ch, nested)
  {
    hide Step, CsiEnd, AfterEscape, SingleShift, InShortEscape, ControlMove, ControlState;
    ReadDigit(c, Collecting(t), ch, nested);
    assert Control(c, Heard(t), ch) == (Heard(t).(parser := Digit(Collecting(t).parser, ch)), []);
    HearControl(c, t, ch, nested);
  }

  lemma {:induction false} FirstNumber(c: Config, t: Term, s: seq<CodeUnit>, nested: bool)
    requires Sound(c, t) && !t.modes.printing && t.parser.esc == Square
    requires |s| > 0 && forall i :: 0 <= i < |s| ==> IsDigit(s[i])
    ensures Process(c, t, s, nested) == Process(c, Collecting(t), s, nested)
    decreases |s|
  {
    hide Step;
    if |s| == 1 {
      assert s == [s[0]];
      ProcessOne(c, t, s[0], nested);
      ProcessOne(c, Collecting(t), s[0], nested);
      FirstDigit(c, t, s[0], nested);
    } else {
      FirstNumber(c, t, s[..|s| - 1], nested);
    }
  }

  lemma ReadSeparator(c: Config, t: Term, nested: bool)
    requires Sound(c, t) && !t.modes.printing && t.parser.esc == GetPars
    ensures Process(c, t, [0x3B], nested) == Heard(t).(parser := t.parser.(npar := t.parser.npar + 1))
  {
    hide Step, CsiEnd;
    HearControl(c, t, 0x3B, nested);
    ProcessOne(c, t, 0x3B, nested);
  }

  // The last character of a sequence; a repetition is not one of these.
  lemma ReadFinal(c: Config, t: Term, ch: CodeUnit, nested: bool)
    requires Sound(c, t) && !t.modes.printing
    requires t.parser.esc == GetPars && !t.parser.question && 0x40 <= ch <= 0x7E && ch != 0x62
    ensures Process(c, t, [ch], nested) == CsiEnd(c, Heard(t), ch).0
  {
    hide Step, CsiGoto, CsiTravel, CsiEdit, CsiOther, AfterCsi, AfterEscape, SingleShift, InShortEscape, ControlMove, ControlState;
    HearControl(c, t, ch, nested);
    ProcessOne(c, t, ch, nested);
  }

  // Parameters as they are written ...
  function Numbers(pars: seq<nat>): seq<CodeUnit>
    requires |pars| > 0
  {
    if |pars| == 1 then Decimal(pars[0]) else Numbers(pars[..|pars| - 1]) + ([0x3B] + Decimal(pars[|pars| - 1]))
  }

  // ... and as the parser keeps them.
  function Collected(pars: seq<nat>): (m: map<nat, nat>)
    ensures forall i: nat :: (i in m <==> i < |pars|) && (i < |pars| ==> m[i] == pars[i])
  {
    if pars == [] then map[] else Collected(pars[..|pars| - 1])[|pars| - 1 := pars[|pars| - 1]]
  }

  // The parser state after CSI and the parameters.
  function Reading(t: Term, pars: seq<nat>): Term
    requires |pars| > 0
  {
    Heard(t).(parser := Parser(GetPars, |pars| - 1, Collected(pars), false))
  }

  lemma ReadFirst(c: Config, t: Term, n: nat, nested: bool)
    requires Sound(c, t) && !t.modes.printing
    ensures Process(c, t, [0x1B, 0x5B] + Decimal(n), nested)
            == Heard(t).(parser := Parser(GetPars, 0, map[0 := n], false))
  {
    hide Process, Replies, Decimal;
    var t1 := WithEsc(Heard(t), Square);
    ReadCsi(c, t, nested);
    ProcessConcat(c, t, [0x1B, 0x5B], Decimal(n), nested);
    FirstNumber(c, t1, Decimal(n), nested);
    ReadNumber(c, Collecting(t1), n, nested);
  }

  lemma ReadNext(c: Config, t: Term, n: nat, nested: bool)
    requires Sound(c, t) && !t.modes.printing && t.parser.esc == GetPars && t.parser.npar + 1 !in t.parser.par
    ensures var p := t.parser;
      Process(c, t, [0x3B] + Decimal(n), nested)
      == Heard(t).(parser := p.(npar := p.npar + 1, par := p.par[p.npar + 1 := n]))
  {
    hide Process, Replies, Decimal;
    ReadSeparator(c, t, nested);
    ProcessConcat(c, t, [0x3B], Decimal(n), nested);
    ReadNumber(c, Heard(t).(parser := t.parser.(npar := t.parser.npar + 1)), n, nested);
  }

  lemma CollectedOne(n: nat)
    ensures Collected([n]) == map[0 := n]
  {
    assert [n][..0] == [];
  }

  lemma {:induction false} ReadNumbers(c: Config, t: Term, pars: seq<nat>, nested: bool)
    requires Sound(c, t) && !t.modes.printing && |pars| > 0
    ensures Process(c, t, [0x1B, 0x5B] + Numbers(pars), nested) == Reading(t, pars)
    decreases |pars|
  {
    hide Process, Replies, Decimal, Sound;
    if |pars| == 1 {
      assert pars == [pars[0]];
      CollectedOne(pars[0]);
      ReadFirst(c, t, pars[0], nested);
    } else {
      var init, last := pars[..|pars| - 1], pars[|pars| - 1];
      ReadNumbers(c, t, init, nested);
      assert [0x1B, 0x5B] + Numbers(pars) == ([0x1B, 0x5B] + Numbers(init)) + ([0x3B] + Decimal(last));
      ProcessConcat(c, t, [0x1B, 0x5B] + Numbers(init), [0x3B] + Decimal(last), nested);
      ReadNext(c, Reading(t, init), last, nested);
    }
  }

  /** A control sequence: CSI, its parameters in decimal digits, and a letter. */
  function Sequence(pars: seq<nat>, ch: CodeUnit): seq<CodeUnit>
    requires |pars| > 0
  {
    [0x1B, 0x5B] + Numbers(pars) + [ch]
  }

  /** Read in any state, whatever was being read before, it does what its letter
      stands for, with the parameters that were written. */
  lemma SequenceActs(c: Config, t: Term, pars: seq<nat>, ch: CodeUnit, nested: bool)
    requires Sound(c, t) && !t.modes.printing && |pars| > 0 && 0x40 <= ch <= 0x7E && ch != 0x62
    ensures Process(c, t, Sequence(pars, ch), nested) == CsiEnd(c, Reading(t, pars), ch).0
  {
    hide Process, Replies, Numbers, CsiEnd, Collected;
    ReadNumbers(c, t, pars, nested);
    ProcessConcat(c, t, [0x1B, 0x5B] + Numbers(pars), [ch], nested);
    ReadFinal(c, Reading(t, pars), ch, nested);
  }

  /** The sequence that addresses the cursor: CSI row ; column H. */
  function Address(row: nat, column: nat): seq<CodeUnit> {
    Sequence([row, column], 0x48)
  }

  /** Read in any state, it places the cursor at that row and column, counted from
      one. */
  lemma AddressGoes(c: Config, t: Term, row: nat, column: nat, nested: bool)
    requires Sound(c, t) && !t.modes.printing
    ensures Process(c, t, Address(row, column), nested)
            == GotoRelative(c, WithEsc(Reading(t, [row, column]), Normal), column - 1, row - 1)
  {
    hide Process, Sequence, GotoRelative, Collected;
    SequenceActs(c, t, [row, column], 0x48, nested);
  }

  /** Sending the cursor back to where it was reported to be restores it, except in
      origin mode: there the report counts rows from the screen's top, plus the
      region's, and the address counts them from the region's. */
  lemma ReportReturns(c: Config, t: Term, row: nat, column: nat, nested: bool)
    requires Sound(c, t) && !t.modes.printing
    requires CsiAnswer(t, Parser(GetPars, 0, map[0 := 6], false), 0x6E) == [CursorAt(row, column)]
    ensures var t1 := Process(c, t, Address(row, column), nested);
      (t1.x == t.x && t1.y == t.y)
      <==> (!t.modes.offset || (t.top == 0 && t.y < t.bottom) || t.y == t.bottom - 1)
  {
    hide Process, Replies, Address, Collected;
    AddressGoes(c, t, row, column, nested);
  }
}
