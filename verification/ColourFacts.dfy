/** Which colours a look shows in. */
module ColourFacts {
  import opened Cells
  import opened ScreenFacts
  import opened SequenceFacts
  import opened TermFacts
  import opened TermSpec
  import opened TypingFacts
  import opened LookFacts

  // The bright colour of the same name, or back.
  function Opposite(n: nat): nat {
    if n < 8 then n + 8 else n - 8
  }

  /** The colour that a look asks for: dim text is grey, unless it is reversed, and
      bright text is in the bright colour. */
  function Ink(a: Attr): nat {
    var n := if a.reverse then a.bg else a.fg;
    if a.dim && !a.reverse then 8 else if a.bright && n < 8 then n + 8 else n
  }

  /** What is behind it: the other colour, or its opposite when it blinks. */
  function Paper(a: Attr): nat {
    var n := if a.reverse then a.fg else a.bg;
    if a.blink then Opposite(n) else n
  }

  // Bright text on white, and text in the colour that is behind it, cannot be read.
  predicate Legible(ink: nat, paper: nat) {
    ink != paper && !(paper == 7 && ink >= 8)
  }

  // What it is drawn in then.
  function Instead(ink: nat, paper: nat): nat {
    if Opposite(ink) == 7 || (ink == 7 && paper == 7) then 8 else Opposite(ink)
  }

  /** Every look is drawn in its own colours if and only if they can be read; if not, the
      colour of the text gives way. */
  lemma LooksColoured(a: Attr)
    requires Look(a)
    ensures var shown := PenFor(a).color;
      && shown == Ansi(if Legible(Ink(a), Paper(a)) then Ink(a) else Instead(Ink(a), Paper(a)), Paper(a))
      && (shown == Ansi(Ink(a), Paper(a)) <==> Legible(Ink(a), Paper(a)))
    ensures PenFor(a).style == if a.underline then Underline else Plain
    ensures PenFor(a).attr == a
  {
  }

  /** Without any flags that is one colour on the other; reversed, they trade places. */
  lemma PlainColours(a: Attr)
    requires Look(a) && !a.dim && !a.bright && !a.blink
    ensures !a.reverse ==> (PenFor(a).color == Ansi(a.fg, a.bg) <==> a.fg != a.bg)
    ensures a.reverse ==> (PenFor(a).color == Ansi(a.bg, a.fg) <==> a.fg != a.bg && !(a.fg == 7 && a.bg == 15))
  {
  }

  // ---- On the screen ----

  // A text in one class and style.
  function Styled(s: seq<CodeUnit>, cls: Class, style: Style): (cells: Row)
    ensures |cells| == |s|
  {
    seq(|s|, i requires 0 <= i < |s| => Cell(s[i], cls, style))
  }

  lemma TypedCells(c: Config, s: seq<CodeUnit>, sets: Charsets, modes: Modes, pen: Pen)
    requires AllTypeable(c, sets, modes, s) && Readable(pen.color)
    ensures TextCells(s, pen.color, pen.style) == Styled(s, pen.color, pen.style)
  {
    forall i | 0 <= i < |s|
      ensures MakeCell(s[i], pen.color, pen.style) == Cell(s[i], pen.color, pen.style)
    {
      assert Typeable(c, sets, modes, s[i]);
    }
  }

  // What typing puts on the screen, where it fits on the row.
  lemma TypedShows(c: Config, t: Term, s: seq<CodeUnit>, nested: bool)
    requires Sound(c, t) && t.page.Fits(c.width, c.height) && Writing(t) && !t.needWrap && t.x + |s| <= c.width
    requires AllTypeable(c, t.sets, t.modes, s) && |s| > 0
    ensures var row := t.page.rows[t.y];
      Process(c, t, s, nested).page
      == t.page.(rows := t.page.rows[t.y := row[..t.x] + Styled(s, t.pen.color, t.pen.style) + row[t.x + |s|..]])
  {
    hide Process, Splice, Typeable;
    TypeOnRow(c, t, s, nested);
    TypedCells(c, s, t.sets, t.modes, t.pen);
    PutExactly(t.page, t.x, t.y, Styled(s, t.pen.color, t.pen.style), c.width, c.height);
  }

  /** The sequence that selects a look, and then a text: the text is on the screen in the
      colours and the style of that look, and nothing else changes there. */
  lemma LookShows(c: Config, t: Term, b: Attr, s: seq<CodeUnit>, nested: bool)
    requires Sound(c, t) && t.page.Fits(c.width, c.height) && !t.modes.printing && !t.modes.insert && !t.needWrap
    requires Look(b) && |s| > 0 && t.x + |s| <= c.width && AllTypeable(c, t.sets, t.modes, s)
    ensures var row, ink := t.page.rows[t.y], if Legible(Ink(b), Paper(b)) then Ink(b) else Instead(Ink(b), Paper(b));
      && |Selecting(b)| > 0
      && Process(c, t, Sequence(Selecting(b), 0x6D) + s, nested).page
         == t.page.(rows := t.page.rows[t.y :=
              row[..t.x] + Styled(s, Ansi(ink, Paper(b)), if b.underline then Underline else Plain) + row[t.x + |s|..]])
  {
    hide Process, Replies, Sequence, Collected, Typeable, Selecting, PenFor, Ink, Paper, Legible, Instead;
    SequenceSelects(c, t, b, nested);
    ProcessConcat(c, t, Sequence(Selecting(b), 0x6D), s, nested);
    LooksColoured(b);
    TypedShows(c, WithEsc(Reading(t, Selecting(b)), Normal).(pen := PenFor(b)), s, nested);
  }
}
