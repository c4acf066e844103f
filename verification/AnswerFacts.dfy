/** What the terminal sends back when it is asked. */
module AnswerFacts {
  import opened Cells
  import opened TermSpec
  import opened TermFacts
  import opened SequenceFacts
  import opened MotionFacts

  // What a character that is part of a sequence makes the terminal send back.
  lemma HearAnswer(c: Config, t: Term, ch: CodeUnit, nested: bool)
    requires Sound(c, t) && ch <= 0x7F && (t.parser.esc != Normal || ch == 0x1B) && Control(c, Heard(t), ch).1 == []
    ensures StepReplies(c, t, ch, nested) == Answers(Heard(t), ch)
  {
    hide Control, Answers, Replies;
    assert 27 in CTRL_ALWAYS && 27 in CTRL_ACTION;
  }

  lemma RepliesOne(c: Config, t: Term, ch: CodeUnit, nested: bool)
    requires Sound(c, t)
    ensures Replies(c, t, [ch], nested) == StepReplies(c, t, ch, nested)
  {
    hide StepReplies, Step, Sound;
    assert [ch][..0] == [];
  }

  lemma RepliesNext(c: Config, t: Term, s: seq<CodeUnit>, ch: CodeUnit, nested: bool)
    requires Sound(c, t)
    ensures Replies(c, t, s + [ch], nested) == Replies(c, t, s, nested) + StepReplies(c, Process(c, t, s, nested), ch, nested)
  {
    hide StepReplies, Step, Sound;
    assert (s + [ch])[..|s|] == s;
  }

  lemma DigitSilent(c: Config, t: Term, ch: CodeUnit, nested: bool)
    requires Sound(c, t) && !t.modes.printing && (t.parser.esc == GetPars || t.parser.esc == Square) && IsDigit(ch)
    ensures StepReplies(c, t, ch, nested) == []
    ensures var u := Step(c, t, ch, nested); u.parser.esc == GetPars && !u.modes.printing
  {
    hide Step, StepReplies, CsiEnd, AfterEscape, SingleShift, InShortEscape, ControlMove, ControlState;
    HearAnswer(c, t, ch, nested);
    if t.parser.esc == Square {
      FirstDigit(c, t, ch, nested);
      ReadDigit(c, Collecting(t), ch, nested);
    } else {
      ReadDigit(c, t, ch, nested);
    }
  }

  lemma {:induction false} DigitsSilent(c: Config, t: Term, s: seq<CodeUnit>, nested: bool)
    requires Sound(c, t) && !t.modes.printing && t.parser.esc == Square
    requires forall i :: 0 <= i < |s| ==> IsDigit(s[i])
    ensures Replies(c, t, s, nested) == []
    ensures var u := Process(c, t, s, nested); (u.parser.esc == Square || u.parser.esc == GetPars) && !u.modes.printing
    decreases |s|
  {
    hide Step, StepReplies, Sound;
    if s != [] {
      DigitsSilent(c, t, s[..|s| - 1], nested);
      DigitSilent(c, Process(c, t, s[..|s| - 1], nested), s[|s| - 1], nested);
    }
  }

  lemma EscapeSilent(c: Config, t: Term, nested: bool)
    requires Sound(c, t) && !t.modes.printing
    ensures StepReplies(c, t, 0x1B, nested) == []
  {
    hide StepReplies, InEscape, ControlMove;
    HearAnswer(c, t, 0x1B, nested);
  }

  lemma CsiSilent(c: Config, t: Term, nested: bool)
    requires Sound(c, t) && !t.modes.printing
    ensures Replies(c, t, [0x1B, 0x5B], nested) == []
  {
    EscapeSilent(c, t, nested);
    ReadEscape(c, t, nested);
    var t1 := WithEsc(Heard(t), Escape);
    assert StepReplies(c, t1, 0x5B, nested) == [] by {
      hide StepReplies, AfterCsi, CsiParameter, SingleShift, InShortEscape, ControlMove, ControlState;
      HearAnswer(c, t1, 0x5B, nested);
    }
    hide StepReplies, Step, Sound, Process;
    RepliesOne(c, t, 0x1B, nested);
    ProcessOne(c, t, 0x1B, nested);
    assert [0x1B, 0x5B] == [0x1B] + [0x5B];
    RepliesNext(c, t, [0x1B], 0x5B, nested);
  }

  lemma FinalAnswers(c: Config, t: Term, ch: CodeUnit, nested: bool)
    requires Sound(c, t) && !t.modes.printing && t.parser.esc == GetPars && !t.parser.question
    requires 0x40 <= ch <= 0x7E && ch != 0x62
    ensures StepReplies(c, t, ch, nested) == CsiAnswer(t, t.parser, ch)
  {
    hide StepReplies, CsiGoto, CsiTravel, CsiEdit, CsiOther, AfterCsi, AfterEscape, SingleShift, InShortEscape,
         ControlMove, ControlState;
    HearAnswer(c, t, ch, nested);
  }

  lemma SequenceAnswers(c: Config, t: Term, n: nat, ch: CodeUnit, nested: bool)
    requires Sound(c, t) && !t.modes.printing && 0x40 <= ch <= 0x7E && ch != 0x62
    ensures Replies(c, t, Sequence([n], ch), nested) == CsiAnswer(Reading(t, [n]), Reading(t, [n]).parser, ch)
  {
    hide Process, Replies, StepReplies, Sound, Decimal, CsiAnswer, Collected;
    CsiSilent(c, t, nested);
    ReadCsi(c, t, nested);
    ProcessConcat(c, t, [0x1B, 0x5B], Decimal(n), nested);
    DigitsSilent(c, WithEsc(Heard(t), Square), Decimal(n), nested);
    ReadNumbers(c, t, [n], nested);
    RepliesNext(c, t, [0x1B, 0x5B] + Numbers([n]), ch, nested);
    FinalAnswers(c, Reading(t, [n]), ch, nested);
  }

  /** CSI 5 n asks whether all is well, CSI 6 n where the cursor is, counted from one,
      and CSI c and ESC Z what the terminal is; each is answered once. */
  lemma RequestsAnswered(c: Config, t: Term, nested: bool)
    requires Sound(c, t) && !t.modes.printing
    ensures Replies(c, t, Sequence([5], 0x6E), nested) == [StatusOk]
    ensures Replies(c, t, Sequence([6], 0x6E), nested)
            == [CursorAt(t.y + 1 + (if t.modes.offset then t.top else 0), t.x + 1)]
    ensures Replies(c, t, Sequence([0], 0x63), nested) == [DeviceId]
  {
    hide Replies, Sequence, Collected, Sound;
    SequenceAnswers(c, t, 5, 0x6E, nested);
    SequenceAnswers(c, t, 6, 0x6E, nested);
    SequenceAnswers(c, t, 0, 0x63, nested);
  }

  lemma IdentityAnswered(c: Config, t: Term, nested: bool)
    requires Sound(c, t) && !t.modes.printing
    ensures Replies(c, t, [0x1B, 0x5A], nested) == [DeviceId]
  {
    EscapeSilent(c, t, nested);
    ReadEscape(c, t, nested);
    var t1 := WithEsc(Heard(t), Escape);
    assert StepReplies(c, t1, 0x5A, nested) == [DeviceId] by {
      hide StepReplies, AfterEscape, AfterCsi, CsiParameter, SingleShift, InShortEscape, ControlMove, ControlState;
      HearAnswer(c, t1, 0x5A, nested);
    }
    hide StepReplies, Step, Sound, Process;
    RepliesOne(c, t, 0x1B, nested);
    ProcessOne(c, t, 0x1B, nested);
    assert [0x1B, 0x5A] == [0x1B] + [0x5A];
    RepliesNext(c, t, [0x1B], 0x5A, nested);
  }

  /** No other sequence of this kind is answered. */
  lemma OthersSilent(c: Config, t: Term, n: nat, ch: CodeUnit, nested: bool)
    requires Sound(c, t) && !t.modes.printing && 0x40 <= ch <= 0x7E && ch != 0x62
    requires !(ch == 0x6E && 5 <= n <= 6) && !(ch == 0x63 && n == 0)
    ensures Replies(c, t, Sequence([n], ch), nested) == []
  {
    hide Replies, Sequence, Collected, Sound;
    SequenceAnswers(c, t, n, ch, nested);
    Parameters(t, [n]);
  }

  lemma ReadGreater(c: Config, t: Term, nested: bool)
    requires Sound(c, t) && !t.modes.printing && t.parser.esc == Square
    ensures StepReplies(c, t, 0x3E, nested) == []
    ensures Step(c, t, 0x3E, nested) == Heard(t).(parser := Parser(DeviceAttr, 0, map[], false))
  {
    hide Step, StepReplies, CsiGoto, CsiTravel, CsiEdit, SetModes, Renditions, AfterEscape, SingleShift, InShortEscape,
         ControlMove, ControlState;
    HearControl(c, t, 0x3E, nested);
    HearAnswer(c, t, 0x3E, nested);
  }

  lemma SecondaryReply(c: Config, t: Term, nested: bool)
    requires Sound(c, t) && !t.modes.printing && t.parser == Parser(DeviceAttr, 0, map[], false)
    ensures StepReplies(c, t, 0x63, nested) == [SecondaryId]
  {
    hide StepReplies, CsiEnd, AfterEscape, SingleShift, InShortEscape, ControlMove, ControlState;
    HearAnswer(c, t, 0x63, nested);
  }

  /** CSI > c asks for the version. */
  lemma VersionAnswered(c: Config, t: Term, nested: bool)
    requires Sound(c, t) && !t.modes.printing
    ensures Replies(c, t, [0x1B, 0x5B] + [0x3E] + [0x63], nested) == [SecondaryId]
  {
    hide StepReplies, Step, Replies, Process;
    CsiSilent(c, t, nested);
    ReadCsi(c, t, nested);
    var t1 := WithEsc(Heard(t), Square);
    ReadGreater(c, t1, nested);
    ProcessConcat(c, t, [0x1B, 0x5B], [0x3E], nested);
    ProcessOne(c, t1, 0x3E, nested);
    RepliesNext(c, t, [0x1B, 0x5B], 0x3E, nested);
    RepliesNext(c, t, [0x1B, 0x5B] + [0x3E], 0x63, nested);
    SecondaryReply(c, Heard(t1).(parser := Parser(DeviceAttr, 0, map[], false)), nested);
  }
}
