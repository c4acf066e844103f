/** The looks that text can have, and the sequences that select them. */
module LookFacts {
  import opened SequenceFacts
  import opened TermSpec

  // Eight colours each, the default background, and not both bright and dim.
  predicate Look(a: Attr) {
    a.fg < 8 && (a.bg < 8 || a.bg == 15) && !(a.bright && a.dim)
  }

  function ApplyAll(a: Attr, pars: seq<nat>): Attr
    decreases |pars|
  {
    if pars == [] then a else ApplyAll(RenditionAttr(a, pars[0]), pars[1..])
  }

  lemma ApplyOne(a: Attr, par: nat, more: seq<nat>)
    ensures ApplyAll(a, [par] + more) == ApplyAll(RenditionAttr(a, par), more)
  {
    assert ([par] + more)[1..] == more;
  }

  // The parameters of CSI m for the flags of a look, and for all of it.
  function SelectingFlags(a: Attr): seq<nat> {
    [if a.bright then 1 else if a.dim then 2 else 22]
    + ([if a.underline then 4 else 24] + ([if a.blink then 5 else 25] + ([if a.reverse then 7 else 27] + [])))
  }

  function Selecting(a: Attr): seq<nat> {
    [0] + ([30 + a.fg] + ([if a.bg == 15 then 49 else 40 + a.bg] + SelectingFlags(a)))
  }

  lemma FlagEffects(a: Attr, b: Attr)
    requires !(b.bright && b.dim)
    ensures RenditionAttr(a, if b.bright then 1 else if b.dim then 2 else 22) == a.(bright := b.bright, dim := b.dim)
    ensures RenditionAttr(a, if b.underline then 4 else 24) == a.(underline := b.underline)
    ensures RenditionAttr(a, if b.blink then 5 else 25) == a.(blink := b.blink)
    ensures RenditionAttr(a, if b.reverse then 7 else 27) == a.(reverse := b.reverse)
  {
  }

  lemma FlagsSelected(a: Attr, b: Attr)
    requires Look(b) && a.fg == b.fg && a.bg == b.bg
    ensures ApplyAll(a, SelectingFlags(b)) == b
  {
    hide RenditionAttr;
    var p0, p1, p2, p3 := if b.bright then 1 else if b.dim then 2 else 22, if b.underline then 4 else 24,
                          if b.blink then 5 else 25, if b.reverse then 7 else 27;
    var a0 := a.(bright := b.bright, dim := b.dim);
    var a1 := a0.(underline := b.underline);
    var a2 := a1.(blink := b.blink);
    FlagEffects(a, b);
    ApplyOne(a, p0, [p1] + ([p2] + ([p3] + [])));
    FlagEffects(a0, b);
    ApplyOne(a0, p1, [p2] + ([p3] + []));
    FlagEffects(a1, b);
    ApplyOne(a1, p2, [p3] + []);
    FlagEffects(a2, b);
    ApplyOne(a2, p3, []);
  }

  lemma ColourEffects(a: Attr, b: Attr)
    requires Look(b)
    ensures RenditionAttr(a, 0) == ATTR_DEFAULT
    ensures RenditionAttr(a, 30 + b.fg) == a.(fg := b.fg)
    ensures RenditionAttr(a, if b.bg == 15 then 49 else 40 + b.bg) == a.(bg := b.bg)
  {
  }

  /** Every look can be selected, whatever was selected before ... */
  lemma LookSelected(a: Attr, b: Attr)
    requires Look(b)
    ensures ApplyAll(a, Selecting(b)) == b
  {
    hide RenditionAttr;
    var bg := if b.bg == 15 then 49 else 40 + b.bg;
    var a1 := ATTR_DEFAULT.(fg := b.fg);
    ColourEffects(a, b);
    ApplyOne(a, 0, [30 + b.fg] + ([bg] + SelectingFlags(b)));
    ColourEffects(ATTR_DEFAULT, b);
    ApplyOne(ATTR_DEFAULT, 30 + b.fg, [bg] + SelectingFlags(b));
    ColourEffects(a1, b);
    ApplyOne(a1, bg, SelectingFlags(b));
    FlagsSelected(a1.(bg := b.bg), b);
  }

  /** ... and no parameters lead to any other look. */
  lemma {:induction false} LooksKept(a: Attr, pars: seq<nat>)
    requires Look(a)
    ensures Look(ApplyAll(a, pars))
    decreases |pars|
  {
    if pars != [] {
      LooksKept(RenditionAttr(a, pars[0]), pars[1..]);
    }
  }

  // The parameters from the i-th on; none of them chooses a character set.
  predicate ParametersAre(p: Parser, i: nat, pars: seq<nat>)
    decreases |pars|
  {
    if pars == [] then i == p.npar + 1
    else Given(p, i) && Par(p, i) == pars[0] && !(10 <= pars[0] <= 12) && ParametersAre(p, i + 1, pars[1..])
  }

  /** CSI m applies its parameters one after the other, and then makes the colours
      readable. */
  lemma {:induction false} RenditionsApply(c: Config, t: Term, i: nat, pars: seq<nat>)
    requires Sound(c, t) && ParametersAre(t.parser, i, pars)
    ensures Renditions(c, t, i) == t.(pen := PenFor(ApplyAll(t.pen.attr, pars)))
    decreases |pars|
  {
    hide RenditionAttr, PenFor;
    if pars != [] {
      ParametersEnd(t.parser, i, pars);
      RenditionsApply(c, t.(pen := t.pen.(attr := RenditionAttr(t.pen.attr, pars[0]))), i + 1, pars[1..]);
    }
  }

  lemma {:induction false} ParametersEnd(p: Parser, i: nat, pars: seq<nat>)
    requires ParametersAre(p, i, pars)
    ensures i + |pars| == p.npar + 1
    decreases |pars|
  {
    if pars != [] {
      ParametersEnd(p, i + 1, pars[1..]);
    }
  }

  lemma {:induction false} CollectedAre(p: Parser, pars: seq<nat>, i: nat)
    requires |pars| > 0 && p.npar == |pars| - 1 && p.par == Collected(pars) && i <= |pars|
    requires forall j :: 0 <= j < |pars| ==> !(10 <= pars[j] <= 12)
    ensures ParametersAre(p, i, pars[i..])
    decreases |pars| - i
  {
    if i < |pars| {
      hide Collected;
      CollectedAre(p, pars, i + 1);
      assert pars[i..][1..] == pars[i + 1..];
    }
  }

  lemma NoCharsets(b: Attr)
    requires Look(b)
    ensures |Selecting(b)| == 7 && forall j :: 0 <= j < 7 ==> !(10 <= Selecting(b)[j] <= 12)
  {
  }

  /** The sequence that selects a look, read in any state, gives the text that
      follows exactly that look, in readable colours, and changes nothing else. */
  lemma SequenceSelects(c: Config, t: Term, b: Attr, nested: bool)
    requires Sound(c, t) && !t.modes.printing && Look(b)
    ensures |Selecting(b)| > 0
    ensures Process(c, t, Sequence(Selecting(b), 0x6D), nested)
            == WithEsc(Reading(t, Selecting(b)), Normal).(pen := PenFor(b))
  {
    hide Process, Sequence, Collected, Selecting, PenFor, Renditions, ApplyAll, ParametersAre;
    var pars := Selecting(b);
    NoCharsets(b);
    SequenceActs(c, t, pars, 0x6D, nested);
    var t1 := WithEsc(Reading(t, pars), Normal);
    CollectedAre(t1.parser, pars, 0);
    assert pars[0..] == pars;
    RenditionsApply(c, t1, 0, pars);
    LookSelected(t1.pen.attr, b);
  }
}
