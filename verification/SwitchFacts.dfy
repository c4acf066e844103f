/** Facts about the switches of the terminal that the text itself throws: tab stops,
    character sets and the printer. */
module SwitchFacts {
  import opened Cells
  import opened Grid
  import opened TermSpec
  import opened TermFacts
  import opened SequenceFacts

  // ---- Tab stops ----

  lemma {:induction false} NoTabsAt(width: nat, x: int)
    ensures 0 <= x < width ==> !IsTab(NoTabs(width), x)
  {
    if width > 0 && x != width - 1 {
      NoTabsAt(width - 1, x);
    }
  }

  lemma {:induction false} NoStops(width: nat, x: nat)
    ensures NextTab(NoTabs(width), x, width) >= width
    decreases width - x
  {
    if x < width {
      NoTabsAt(width, x + 1);
      NoStops(width, x + 1);
    }
  }

  lemma TabMoves(c: Config, t: Term, nested: bool)
    requires Sound(c, t) && !t.modes.printing && !t.modes.dispCtrl
    ensures Step(c, t, 0x09, nested) == Ht(c, Heard(t), 1)
  {
    hide Ht, InEscape;
    assert 9 in CTRL_ACTION;
  }

  /** CSI 3 g, and CSI 2 g, clear all tab stops: a tab then goes to the last column. */
  lemma TabsCleared(c: Config, t: Term, n: nat, nested: bool)
    requires Sound(c, t) && !t.modes.printing && !t.modes.dispCtrl && 2 <= n <= 3
    ensures var r := Process(c, t, Sequence([n], 0x67), nested);
      && (forall x :: 0 <= x < c.width ==> !IsTab(r.tabs, x))
      && r.page == t.page && r.x == t.x && r.y == t.y
      && Step(c, r, 0x09, nested).x == c.width - 1
  {
    hide Process, Sequence, Step, Collected, NextTab, NoTabs;
    SequenceActs(c, t, [n], 0x67, nested);
    var r := Process(c, t, Sequence([n], 0x67), nested);
    forall x | 0 <= x < c.width
      ensures !IsTab(r.tabs, x)
    {
      NoTabsAt(c.width, x);
    }
    NoStops(c.width, r.x);
    TabMoves(c, r, nested);
    assert TabRight(r.tabs, r.x, 1, c.width) == NextTab(r.tabs, r.x, c.width);
  }

  // ---- Character sets ----

  // The character that puts a set into one of G0 to G3.
  predicate Designates(ch: CodeUnit, set_: Charset) {
    match set_
    case Graphics => ch == 0x30
    case Latin1 => ch == 0x42
    case CodePage437 => ch == 0x55
    case DirectToFont => ch == 0x4B
  }

  // Text is drawn, through one character set.
  predicate ShowsThrough(t: Term, set_: Charset) {
    !t.modes.printing && t.parser.esc == Normal && !t.modes.toggleMeta && t.sets.translate == set_
  }

  predicate Printable(s: seq<CodeUnit>) {
    forall i :: 0 <= i < |s| ==> 32 <= s[i] <= 126
  }

  /** Draws what a character set makes of a text. */
  function DrawThrough(c: Config, t: Term, set_: Charset, s: seq<CodeUnit>): (r: Term)
    requires Sound(c, t) && Printable(s)
    ensures Sound(c, r)
  {
    if s == [] then t
    else
      var t1 := DrawThrough(c, t, set_, s[..|s| - 1]);
      var glyph := ToGlyph(c.Lookup(set_, s[|s| - 1]));
      if glyph.Nothing? then Heard(t1) else Draw(c, Heard(t1), glyph.ch)
  }

  lemma PreparedKeepsSwitches(c: Config, t: Term)
    requires Sound(c, t)
    ensures var r := Prepared(c, t); r.modes == t.modes && r.sets == t.sets && r.parser == t.parser
  {
    hide Scroll;
  }

  lemma DrawKeepsSwitches(c: Config, t: Term, ch: CodeUnit)
    requires Sound(c, t)
    ensures var r := Draw(c, t, ch); r.modes == t.modes && r.sets == t.sets && r.parser == t.parser
  {
    hide Prepared, Splice, Sound;
    PreparedKeepsSwitches(c, t);
  }

  lemma OneThrough(c: Config, t: Term, set_: Charset, ch: CodeUnit, nested: bool)
    requires Sound(c, t) && ShowsThrough(t, set_) && 32 <= ch <= 126
    ensures var glyph := ToGlyph(c.Lookup(set_, ch));
      Step(c, t, ch, nested) == if glyph.Nothing? then Heard(t) else Draw(c, Heard(t), glyph.ch)
  {
    hide Draw, Control, ToGlyph;
  }

  /** Whatever is typed shows through the set in use, which it does not change. */
  lemma {:induction false} TextThrough(c: Config, t: Term, set_: Charset, s: seq<CodeUnit>, nested: bool)
    requires Sound(c, t) && ShowsThrough(t, set_) && Printable(s)
    ensures Process(c, t, s, nested) == DrawThrough(c, t, set_, s)
    ensures var r := DrawThrough(c, t, set_, s);
      r.modes == t.modes && r.sets == t.sets && r.parser == t.parser
    decreases |s|
  {
    hide Step, Draw, ToGlyph;
    if s != [] {
      var init, ch := s[..|s| - 1], s[|s| - 1];
      TextThrough(c, t, set_, init, nested);
      var t1 := DrawThrough(c, t, set_, init);
      OneThrough(c, t1, set_, ch, nested);
      var glyph := ToGlyph(c.Lookup(set_, ch));
      if glyph.Glyph? {
        DrawKeepsSwitches(c, Heard(t1), glyph.ch);
      }
    }
  }

  // Parts of a sequence other than a control sequence.
  lemma ReadLead(c: Config, t: Term, ch: CodeUnit, nested: bool)
    requires Sound(c, t) && !t.modes.printing && t.parser.esc == Escape && (ch == 0x25 || 0x28 <= ch <= 0x2F || 0x4E <= ch <= 0x4F)
    ensures Step(c, t, ch, nested) == WithEsc(Heard(t), EscapeNext(ch))
  {
    hide Step, AfterCsi, CsiParameter, SingleShift, InShortEscape, ControlMove, ControlState;
    HearControl(c, t, ch, nested);
  }

  lemma ProcessThree(c: Config, t: Term, a: CodeUnit, b: CodeUnit, ch: CodeUnit, nested: bool)
    requires Sound(c, t)
    ensures Process(c, t, [a, b, ch], nested) == Step(c, Step(c, Step(c, t, a, nested), b, nested), ch, nested)
  {
    hide Step, Sound;
    ProcessOne(c, t, a, nested);
    assert [a, b][..1] == [a] && [a, b, ch][..2] == [a, b];
    assert Process(c, t, [a, b], nested) == Step(c, Step(c, t, a, nested), b, nested);
  }

  // ESC and two characters, the second of which acts.
  lemma EscapeTwo(c: Config, t: Term, lead: CodeUnit, ch: CodeUnit, nested: bool)
    requires Sound(c, t) && !t.modes.printing && (lead == 0x25 || 0x28 <= lead <= 0x2F || 0x4E <= lead <= 0x4F)
    ensures Process(c, t, [0x1B, lead, ch], nested) == Step(c, WithEsc(Heard(t), EscapeNext(lead)), ch, nested)
  {
    hide Step, Process, EscapeNext;
    ReadEscape(c, t, nested);
    ReadLead(c, WithEsc(Heard(t), Escape), lead, nested);
    ProcessThree(c, t, 0x1B, lead, ch, nested);
  }

  // The characters that designate one of the sets G0 to G3.
  predicate Chooses(lead: CodeUnit, n: nat) {
    if n == 0 then lead == 0x28
    else n <= 3 && (lead == 0x28 + n || lead == 0x2C + n)
  }

  lemma ReadChoice(c: Config, t: Term, n: nat, set_: Charset, ch: CodeUnit, nested: bool)
    requires Sound(c, t) && !t.modes.printing && n <= 3 && t.parser.esc == SetG(n) && Designates(ch, set_)
    ensures Step(c, t, ch, nested)
      == WithEsc(Heard(t), Normal).(sets := t.sets.(g := t.sets.g[n := set_],
                                                    translate := if t.sets.use == n then set_ else t.sets.translate))
  {
    hide Step, AfterCsi, CsiParameter, SingleShift, AfterEscape, ControlMove, ControlState;
    HearControl(c, t, ch, nested);
  }

  /** ESC, one of ( ) * + - . / and the kind of a character set put it into G0 to G3; it
      is used at once if its place is in use. */
  lemma SetDesignated(c: Config, t: Term, lead: CodeUnit, n: nat, set_: Charset, ch: CodeUnit, nested: bool)
    requires Sound(c, t) && !t.modes.printing && Chooses(lead, n) && Designates(ch, set_)
    ensures Process(c, t, [0x1B, lead, ch], nested)
      == WithEsc(Heard(t), Normal).(sets := t.sets.(g := t.sets.g[n := set_],
                                                    translate := if t.sets.use == n then set_ else t.sets.translate))
  {
    hide Step, Process, Designates;
    EscapeTwo(c, t, lead, ch, nested);
    ReadChoice(c, WithEsc(Heard(t), SetG(n)), n, set_, ch, nested);
  }

  /** ESC, a designation and a kind of character set, read in any state: what is typed
      then shows through that set, until another one is chosen, if its place is in use. */
  lemma DesignatedText(c: Config, t: Term, lead: CodeUnit, n: nat, set_: Charset, ch: CodeUnit, s: seq<CodeUnit>, nested: bool)
    requires Sound(c, t) && !t.modes.printing && !t.modes.toggleMeta && t.sets.use == n
    requires Chooses(lead, n) && Designates(ch, set_) && Printable(s)
    ensures var t1 := Process(c, t, [0x1B, lead, ch], nested);
      && t1.page == t.page && t1.x == t.x && t1.y == t.y && t1.needWrap == t.needWrap && t1.pen == t.pen
      && Process(c, t, [0x1B, lead, ch] + s, nested) == DrawThrough(c, t1, set_, s)
      && ShowsThrough(DrawThrough(c, t1, set_, s), set_)
  {
    hide Process, Replies, Sound, DrawThrough, Designates;
    SetDesignated(c, t, lead, n, set_, ch, nested);
    var t1 := Process(c, t, [0x1B, lead, ch], nested);
    ProcessConcat(c, t, [0x1B, lead, ch], s, nested);
    TextThrough(c, t1, set_, s, nested);
  }

  // ---- Shifting ----

  // G0 or G1 in use.
  function Shifted(t: Term, n: nat): Term
    requires SetsOk(t.sets) && n <= 1
  {
    Heard(t).(sets := t.sets.(use := n, translate := t.sets.g[n]), modes := t.modes.(dispCtrl := n == 1))
  }

  lemma ShiftActs(c: Config, t: Term, n: nat, nested: bool)
    requires Sound(c, t) && !t.modes.printing && n <= 1
    ensures Step(c, t, 0x0F - n, nested) == Shifted(t, n)
  {
    hide Draw, InEscape, ControlMove, Lf;
    assert 14 in CTRL_ALWAYS && 14 in CTRL_ACTION && 15 in CTRL_ALWAYS && 15 in CTRL_ACTION;
  }

  /** Text between SO and SI shows through G1, and afterwards G0 is in use as it was
      before. */
  lemma ShiftedText(c: Config, t: Term, s: seq<CodeUnit>, nested: bool)
    requires Sound(c, t) && !t.modes.printing && !t.modes.toggleMeta && t.parser.esc == Normal && Printable(s)
    requires t.sets.use == 0 && t.sets.translate == t.sets.g[0] && !t.modes.dispCtrl
    ensures var t1 := DrawThrough(c, Shifted(t, 1), t.sets.g[1], s);
      var r := Process(c, t, [0x0E] + s + [0x0F], nested);
      r == Heard(t1).(sets := t.sets, modes := t.modes)
  {
    hide Process, Replies, DrawThrough, Step;
    ShiftActs(c, t, 1, nested);
    ProcessOne(c, t, 0x0E, nested);
    ProcessConcat(c, t, [0x0E], s, nested);
    TextThrough(c, Shifted(t, 1), t.sets.g[1], s, nested);
    var t1 := DrawThrough(c, Shifted(t, 1), t.sets.g[1], s);
    ProcessConcat(c, t, [0x0E] + s, [0x0F], nested);
    ProcessOne(c, t1, 0x0F, nested);
    ShiftActs(c, t1, 0, nested);
  }

  // ---- The printer ----

  // Only what the printer needs has changed.
  predicate Untouched(t: Term, r: Term) {
    r == t.(last := r.last, parser := r.parser, utf := r.utf, modes := t.modes.(printing := r.modes.printing))
  }

  lemma PrinterReads(c: Config, t: Term, ch: CodeUnit)
    requires Sound(c, t) && t.modes.printing
    ensures var r := Control(c, t, ch);
      Untouched(t, r.0) && r.1 == [] && (r.0.modes.printing <==> !StopsPrinter(t.parser, ch))
  {
    hide PrinterParser, StopsPrinter, ControlMove, ControlState, InEscape;
  }

  lemma PrinterDraws(c: Config, t: Term, ch: CodeUnit)
    requires Sound(c, t) && t.modes.printing
    ensures Untouched(t, Draw(c, t, ch)) && Draw(c, t, ch).modes.printing && Untouched(t, t)
  {
    hide Prepared, DrawHere;
  }

  lemma NotStopped(p: Parser, ch: CodeUnit)
    ensures p.esc == Normal ==> !StopsPrinter(p, ch)
  {
  }

  lemma PrinterActs(c: Config, t: Term, ch: CodeUnit)
    requires Sound(c, t) && t.modes.printing
    ensures var r := Act(c, t, ch);
      && Untouched(t, r.0) && r.1 == []
      && (r.0.modes.printing <==> !StopsPrinter(t.parser, ch))
  {
    hide Control, Draw, ToGlyph, StopsPrinter, Sound, Untouched, IsNormal;
    NotStopped(t.parser, ch);
    PrinterReads(c, t, ch);
    var glyph := ToGlyph(if ch < 256 then c.Lookup(t.sets.translate, ToggleMeta(t, ch)) else ch);
    if glyph.Glyph? {
      PrinterDraws(c, t, glyph.ch);
    } else {
      PrinterDraws(c, t, 0);
    }
  }

  // The character that a character of input completes, if any.
  function Arrives(t: Term, ch: CodeUnit): Glyph
    requires UtfOk(t.utf)
  {
    if t.modes.utf then Decode(t.utf, ch).1 else Glyph(ch)
  }

  /** While the terminal prints, a character of input changes nothing on the screen,
      nor anything else but how it is read; and it ends the printing exactly if,
      decoded, it completes CSI 4 i. */
  lemma PrinterSteps(c: Config, t: Term, ch: CodeUnit, nested: bool)
    requires Sound(c, t) && t.modes.printing
    ensures var r := Step(c, t, ch, nested);
      && Untouched(t, r)
      && (r.modes.printing <==> !(Arrives(t, ch).Glyph? && StopsPrinter(t.parser, Arrives(t, ch).ch)))
  {
    hide Act, Process, StopsPrinter;
    if t.modes.utf {
      var (utf, glyph) := Decode(t.utf, ch);
      if glyph.Glyph? {
        PrinterActs(c, t.(utf := utf), glyph.ch);
      }
    } else {
      PrinterActs(c, t, ch);
    }
  }

  /** Over any input, the screen stays as it is until the printing ends. */
  lemma {:induction false} PrinterHolds(c: Config, t: Term, s: seq<CodeUnit>, nested: bool)
    requires Sound(c, t) && forall i :: 0 <= i < |s| ==> Process(c, t, s[..i], nested).modes.printing
    ensures Untouched(t, Process(c, t, s, nested))
    decreases |s|
  {
    hide Step, Sound;
    if s != [] {
      var init := s[..|s| - 1];
      forall i | 0 <= i < |init|
        ensures Process(c, t, init[..i], nested).modes.printing
      {
        assert init[..i] == s[..i] && Process(c, t, s[..i], nested).modes.printing;
      }
      PrinterHolds(c, t, init, nested);
      PrinterSteps(c, Process(c, t, init, nested), s[|s| - 1], nested);
    }
  }

  // A character of a sequence, as the printer reads it.
  lemma PrinterHears(c: Config, t: Term, ch: CodeUnit, nested: bool)
    requires Sound(c, t) && t.modes.printing && ch <= 0x7F && (t.parser.esc != Normal || ch == 0x1B)
    ensures Step(c, t, ch, nested).parser == PrinterParser(t.parser, ch)
  {
    hide PrinterParser, ControlMove, ControlState, InEscape, Draw, Process;
    assert 27 in CTRL_ALWAYS && 27 in CTRL_ACTION;
  }

  // What the printer makes of CSI 4 i and of CSI ? 4 i, character by character.
  lemma PrinterReadsStop(p: Parser)
    requires EscOk(p.esc)
    ensures PrinterParser(p, 0x1B) == p.(esc := Escape) && !StopsPrinter(p, 0x1B)
    ensures PrinterParser(p.(esc := Escape), 0x5B) == p.(esc := Square) && !StopsPrinter(p.(esc := Escape), 0x5B)
    ensures PrinterParser(p.(esc := Square), 0x34) == Parser(GetPars, 0, map[0 := 4], false)
    ensures PrinterParser(p.(esc := Square), 0x3F) == Parser(GetPars, 0, map[], true)
    ensures PrinterParser(Parser(GetPars, 0, map[], true), 0x34) == Parser(GetPars, 0, map[0 := 4], true)
    ensures !StopsPrinter(p.(esc := Square), 0x34) && !StopsPrinter(p.(esc := Square), 0x3F)
    ensures !StopsPrinter(Parser(GetPars, 0, map[], true), 0x34)
    ensures StopsPrinter(Parser(GetPars, 0, map[0 := 4], false), 0x69)
    ensures !StopsPrinter(Parser(GetPars, 0, map[0 := 4], true), 0x69)
  {
  }

  lemma PrinterStepTwice(c: Config, t: Term, a: CodeUnit, b: CodeUnit, nested: bool)
    requires Sound(c, t) && t.modes.printing && a <= 0x7F && b <= 0x7F
    requires !StopsPrinter(t.parser, a) && (t.parser.esc != Normal || a == 0x1B)
    requires PrinterParser(t.parser, a).esc != Normal
    ensures var r := Process(c, t, [a, b], nested); var p := PrinterParser(t.parser, a);
      && Untouched(t, r) && r.parser == PrinterParser(p, b)
      && (r.modes.printing <==> !StopsPrinter(p, b))
  {
    hide Step, PrinterParser, StopsPrinter, Sound, Untouched;
    PrinterSteps(c, t, a, nested);
    PrinterHears(c, t, a, nested);
    var t1 := Step(c, t, a, nested);
    PrinterSteps(c, t1, b, nested);
    PrinterHears(c, t1, b, nested);
    ProcessOne(c, t, a, nested);
    assert [a, b][..1] == [a];
    UntouchedTwice(t, t1, Step(c, t1, b, nested));
  }

  lemma UntouchedTwice(t: Term, u: Term, r: Term)
    requires Untouched(t, u) && Untouched(u, r)
    ensures Untouched(t, r)
  {
  }

  // Two more characters after a text.
  lemma PrinterGoesOn(c: Config, t: Term, s: seq<CodeUnit>, a: CodeUnit, b: CodeUnit, nested: bool)
    requires Sound(c, t) && a <= 0x7F && b <= 0x7F
    requires var u := Process(c, t, s, nested);
      && u.modes.printing && Untouched(t, u) && !StopsPrinter(u.parser, a) && u.parser.esc != Normal
      && PrinterParser(u.parser, a).esc != Normal
    ensures var u := Process(c, t, s, nested); var p := PrinterParser(u.parser, a);
      var r := Process(c, t, s + [a, b], nested);
      Untouched(t, r) && r.parser == PrinterParser(p, b) && (r.modes.printing <==> !StopsPrinter(p, b))
  {
    hide Process, Replies, PrinterParser, StopsPrinter, Sound, Untouched;
    var u := Process(c, t, s, nested);
    ProcessConcat(c, t, s, [a, b], nested);
    PrinterStepTwice(c, u, a, b, nested);
    UntouchedTwice(t, u, Process(c, t, s + [a, b], nested));
  }

  lemma PrinterEnd(c: Config, t: Term, s: seq<CodeUnit>, nested: bool)
    requires Sound(c, t) && Process(c, t, s, nested).modes.printing && Untouched(t, Process(c, t, s, nested))
    requires EscOk(t.parser.esc) && Process(c, t, s, nested).parser == Parser(GetPars, 0, map[0 := 4], true)
    ensures var r := Process(c, t, s + [0x69], nested); Untouched(t, r) && r.modes.printing
  {
    hide Process, Replies, Sound, PrinterParser, StopsPrinter, Step, Untouched;
    PrinterReadsStop(t.parser);
    ProcessConcat(c, t, s, [0x69], nested);
    ProcessOne(c, Process(c, t, s, nested), 0x69, nested);
    PrinterSteps(c, Process(c, t, s, nested), 0x69, nested);
    UntouchedTwice(t, Process(c, t, s, nested), Process(c, t, s + [0x69], nested));
  }

  lemma PrinterReadsCsi(c: Config, t: Term, nested: bool)
    requires Sound(c, t) && t.modes.printing
    ensures var u := Process(c, t, [0x1B, 0x5B], nested);
      Untouched(t, u) && u.modes.printing && u.parser == t.parser.(esc := Square)
  {
    assert EscOk(t.parser.esc);
    hide Process, PrinterParser, StopsPrinter, Sound, Untouched;
    PrinterReadsStop(t.parser);
    PrinterStepTwice(c, t, 0x1B, 0x5B, nested);
  }

  /** The sequence that turns the printer off is found whatever was printed before ... */
  lemma PrinterEnds(c: Config, t: Term, nested: bool)
    requires Sound(c, t) && t.modes.printing
    ensures var r := Process(c, t, [0x1B, 0x5B] + [0x34, 0x69], nested); Untouched(t, r) && !r.modes.printing
  {
    assert EscOk(t.parser.esc);
    hide Process, PrinterParser, StopsPrinter, Sound, Untouched;
    PrinterReadsStop(t.parser);
    PrinterReadsCsi(c, t, nested);
    PrinterGoesOn(c, t, [0x1B, 0x5B], 0x34, 0x69, nested);
  }

  /** ... but not if a question mark precedes the number. */
  lemma PrinterStays(c: Config, t: Term, nested: bool)
    requires Sound(c, t) && t.modes.printing
    ensures var r := Process(c, t, [0x1B, 0x5B] + [0x3F, 0x34] + [0x69], nested); Untouched(t, r) && r.modes.printing
  {
    assert EscOk(t.parser.esc);
    hide Process, PrinterParser, StopsPrinter, Sound, Untouched;
    PrinterReadsStop(t.parser);
    PrinterReadsCsi(c, t, nested);
    PrinterGoesOn(c, t, [0x1B, 0x5B], 0x3F, 0x34, nested);
    PrinterEnd(c, t, [0x1B, 0x5B] + [0x3F, 0x34], nested);
  }
}
