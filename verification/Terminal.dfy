/** VT100: the terminal itself.  Its methods change its fields and edit its lines
    in place; each is proved to do what TermSpec says on the plain grid. */
module Terminal {
  import opened Cells
  import opened Grid
  import opened TermSpec
  import opened Display
  import opened TermFacts

  class Vt100 {
    const c: Config
    const screen: Screen
    var needWrap: bool
    var top: int
    var bottom: int
    var modes: Modes
    var pen: Pen
    var sets: Charsets
    var saved: Saved
    var savedAlternate: Saved
    var savedSets: Charsets
    var parser: Parser
    var utf: Utf
    var tabs: map<int, bool>
    var last: CodeUnit
    var respondString: seq<Answer>

    /** The state that the fields and lines stand for. */
    ghost function Abs(): Term
      reads this, screen
    {
      Term(screen.shown, screen.hidden, screen.currentScreen == 1,
           screen.cursorX, screen.cursorY, needWrap, top, bottom, modes, pen, sets,
           saved, savedAlternate, savedSets, parser, utf, tabs, last)
    }

    // Everything but the cursor's place.
    ghost predicate Ready()
      reads this, screen
    {
      && screen.Valid() && screen.terminalWidth == c.width && screen.terminalHeight == c.height
      && Framed(c, Abs())
    }

    ghost predicate Valid()
      reads this, screen
    {
      Ready() && screen.CursorOnScreen()
    }

    lemma ValidSound()
      requires Valid()
      ensures Sound(c, Abs())
    {
    }

    constructor (config: Config)
      requires config.Valid()
      ensures Valid() && fresh(screen) && c == config && respondString == []
      ensures Abs().page == Abs().other == BlankGrid(config.width, config.height)
    {
      c := config;
      screen := new Screen(config.width, config.height);
      needWrap, top, bottom := false, 0, config.height;
      modes := INITIAL_MODES.(utf := config.utfPreferred);
      pen := Pen(ATTR_DEFAULT, DEFAULT_CLASS, Plain);
      sets, savedSets := Charsets(0, DEFAULT_SETS, Latin1), Charsets(0, DEFAULT_SETS, Latin1);
      saved, savedAlternate := Saved(false, 0, 0, ATTR_DEFAULT), Saved(false, 0, 0, ATTR_DEFAULT);
      parser, utf, tabs, last := Parser(Normal, 0, map[], false), Utf(0, 0), map[], SPACE;
      respondString := [];
    }

    method GotoXY(x0: int, y0: int)
      requires Ready()
      modifies screen, `needWrap
      ensures Valid() && Abs() == Goto(c, old(Abs()), x0, y0)
    {
      var x, y := x0, y0;
      if x >= c.width { x := c.width - 1; }
      if x < 0 { x := 0; }
      var minY, maxY := 0, c.height;
      if modes.offset {
        minY, maxY := top, bottom;
      }
      if y >= maxY { y := maxY - 1; }
      if y < minY { y := minY; }
      screen.ShowCursor(x, y);
      needWrap := false;
    }

    method GotoXaY(x: int, y: int)
      requires Ready()
      modifies screen, `needWrap
      ensures Valid() && Abs() == GotoRelative(c, old(Abs()), x, y)
    {
      GotoXY(x, if modes.offset then top + y else y);
    }

    method ClearRegion(x: int, y: int, w: int, h: int)
      requires Valid()
      modifies screen
      ensures Valid() && Abs() == ClearIn(c, old(Abs()), x, y, w, h)
    {
      screen.ClearRegion(x, y, w, h, pen.color, pen.style);
    }

    method ScrollRegion(x: int, y: int, w: int, h: int, incX: int, incY: int)
      requires Valid()
      modifies screen
      ensures Valid() && Abs() == ScrollIn(c, old(Abs()), x, y, w, h, incX, incY)
    {
      screen.ScrollRegion(x, y, w, h, incX, incY, pen.color, pen.style);
    }

    method Bs()
      requires Valid()
      modifies screen, `needWrap
      ensures Valid() && Abs() == TermSpec.Bs(c, old(Abs()))
    {
      if screen.cursorX > 0 {
        GotoXY(screen.cursorX - 1, screen.cursorY);
      }
    }

    method Cr()
      requires Valid()
      modifies screen, `needWrap
      ensures Valid() && Abs() == TermSpec.Cr(c, old(Abs()))
    {
      GotoXY(0, screen.cursorY);
    }

    method Ht(count: nat)
      requires Valid()
      modifies screen, `needWrap
      ensures Valid() && Abs() == TermSpec.Ht(c, old(Abs()), count)
    {
      var cx, left := screen.cursorX, count;
      while left > 0
        invariant TabRight(tabs, cx, left, c.width) == TabRight(tabs, screen.cursorX, count, c.width)
      {
        left := left - 1;
        ghost var next := NextTab(tabs, cx, c.width);
        while true
          invariant NextTab(tabs, cx, c.width) == next
          decreases c.width - cx
        {
          var inside := cx < c.width;
          cx := cx + 1;
          if !inside || IsTab(tabs, cx) {
            break;
          }
        }
      }
      if cx > c.width - 1 { cx := c.width - 1; }
      if cx != screen.cursorX {
        GotoXY(cx, screen.cursorY);
      }
    }

    method Rt(count: nat)
      requires Valid()
      modifies screen, `needWrap
      ensures Valid() && Abs() == TermSpec.Rt(c, old(Abs()), count)
    {
      var cx, left := screen.cursorX, count;
      while left > 0
        invariant TabLeft(tabs, cx, left) == TabLeft(tabs, screen.cursorX, count)
      {
        left := left - 1;
        ghost var previous := PreviousTab(tabs, cx);
        while true
          invariant PreviousTab(tabs, cx) == previous
          decreases cx
        {
          var inside := cx > 0;
          cx := cx - 1;
          if !inside || IsTab(tabs, cx) {
            break;
          }
        }
      }
      if cx < 0 { cx := 0; }
      if cx != screen.cursorX {
        GotoXY(cx, screen.cursorY);
      }
    }

    // One line of lf().
    method LineFeed()
      requires Valid()
      modifies screen, `needWrap
      ensures Valid() && Abs() == TermSpec.LineFeed(c, old(Abs()))
    {
      if screen.cursorY == bottom - 1 {
        ScrollRegion(0, top + 1, c.width, bottom - top - 1, 0, -1);
      } else if screen.cursorY < c.height - 1 {
        GotoXY(screen.cursorX, screen.cursorY + 1);
      }
    }

    method Lf(count: nat)
      requires Valid()
      modifies screen, `needWrap
      ensures Valid() && Abs() == TermSpec.Lf(c, old(Abs()), count)
    {
      var left := count;
      while left > 0
        invariant Valid() && TermSpec.Lf(c, Abs(), left) == TermSpec.Lf(c, old(Abs()), count)
      {
        LineFeed();
        left := left - 1;
      }
    }

    // One line of ri().
    method ReverseFeed()
      requires Valid()
      modifies screen, `needWrap
      ensures Valid() && Abs() == TermSpec.ReverseFeed(c, old(Abs()))
    {
      if screen.cursorY == top {
        ScrollRegion(0, top, c.width, bottom - top - 1, 0, 1);
      } else if screen.cursorY > 0 {
        GotoXY(screen.cursorX, screen.cursorY - 1);
      }
    }

    method Ri(count: nat)
      requires Valid()
      modifies screen, `needWrap
      ensures Valid() && Abs() == TermSpec.Ri(c, old(Abs()), count)
    {
      var left := count;
      while left > 0
        invariant Valid() && RiTimes(c, Abs(), left) == RiTimes(c, old(Abs()), count)
      {
        ReverseFeed();
        left := left - 1;
      }
      needWrap := false;
    }

    method SaveCursor()
      requires Valid()
      modifies `saved, `savedAlternate, `savedSets
      ensures Valid() && Abs() == TermSpec.SaveCursor(old(Abs()))
    {
      var s := Saved(true, screen.cursorX, screen.cursorY, pen.attr);
      if screen.currentScreen == 1 {
        savedAlternate := s;
      } else {
        saved := s;
      }
      savedSets := savedSets.(use := sets.use, g := sets.g);
    }

    method RestoreCursor()
      requires Ready()
      requires (if screen.currentScreen == 1 then savedAlternate else saved).valid || screen.CursorOnScreen()
      modifies screen, `needWrap, `pen, `sets
      ensures Valid() && Abs() == TermSpec.RestoreCursor(c, old(Abs()))
    {
      var s := if screen.currentScreen == 1 then savedAlternate else saved;
      if !s.valid {
        return;
      }
      pen := PenFor(s.attr);
      sets := Charsets(savedSets.use, savedSets.g, savedSets.g[savedSets.use]);
      needWrap := false;
      GotoXY(s.x, s.y);
    }

    method EnableAlternateScreen(state: bool)
      requires Valid()
      modifies screen, `needWrap, `pen, `sets, `saved, `savedAlternate, `savedSets
      ensures Valid() && Abs() == EnableAlternate(c, old(Abs()), state)
    {
      if state == (screen.currentScreen == 1) {
        screen.ShowCursor(screen.cursorX, screen.cursorY);
        return;
      }
      if state {
        SaveCursor();
        screen.SwitchScreen();
        GotoXY(0, 0);
        screen.ClearRegion(0, 0, c.width, c.height, DEFAULT_CLASS, Plain);
      } else {
        screen.SwitchScreen();
        RestoreCursor();
      }
    }

    method ResetModes()
      requires Valid()
      modifies `needWrap, `parser, `modes, `utf
      ensures Valid() && Abs() == TermSpec.ResetModes(c, old(Abs()))
    {
      parser := parser.(esc := Normal);
      needWrap := false;
      modes := INITIAL_MODES.(utf := c.utfPreferred);
      utf := Utf(0, 0);
    }

    method ResetPen()
      requires Valid()
      modifies `pen, `sets, `top, `bottom, `last, `tabs
      ensures Valid() && Abs() == TermSpec.ResetPen(c, old(Abs()))
    {
      pen := Pen(ATTR_DEFAULT, DEFAULT_CLASS, Plain);
      sets := Charsets(0, DEFAULT_SETS, Latin1);
      top, bottom := 0, c.height;
      last, tabs := SPACE, map[];
    }

    method Reset()
      requires Valid()
      modifies screen, `needWrap, `pen, `sets, `saved, `savedAlternate, `savedSets,
               `parser, `modes, `utf, `top, `bottom, `last, `tabs
      ensures Valid() && Abs() == TermSpec.Reset(c, old(Abs()))
    {
      ResetModes();
      ResetPen();
      EnableAlternateScreen(false);
      GotoXY(0, 0);
      ClearRegion(0, 0, c.width, c.height);
    }

    // One parameter of setMode().
    method SetMode(par: nat, state: bool)
      requires Valid()
      modifies screen, `needWrap, `pen, `sets, `saved, `savedAlternate, `savedSets, `modes
      ensures Valid() && Abs() == TermSpec.SetMode(c, old(Abs()), par, state)
    {
      if parser.question {
        if par == 6 {
          modes := modes.(offset := state);
        } else if par == 7 {
          modes := modes.(autoWrap := state);
        } else if par == 47 || par == 1047 || par == 1049 {
          EnableAlternateScreen(state);
        }
      } else {
        if par == 3 {
          modes := modes.(dispCtrl := state);
        } else if par == 4 {
          modes := modes.(insert := state);
        } else if par == 20 {
          modes := modes.(crLf := state);
        }
      }
    }

    method SetModes(state: bool)
      requires Valid()
      modifies screen, `needWrap, `pen, `sets, `saved, `savedAlternate, `savedSets, `modes
      ensures Valid() && Abs() == TermSpec.SetModes(c, old(Abs()), 0, state)
    {
      var i := 0;
      while i <= parser.npar
        invariant Valid() && parser == old(parser)
        invariant TermSpec.SetModes(c, Abs(), i, state) == TermSpec.SetModes(c, old(Abs()), 0, state)
        decreases parser.npar + 1 - i
      {
        if Given(parser, i) {
          SetMode(Par(parser, i), state);
        }
        i := i + 1;
      }
    }

    method Csim()
      requires Valid()
      modifies `pen, `sets, `modes
      ensures Valid() && Abs() == Renditions(c, old(Abs()), 0)
    {
      var i := 0;
      while i <= parser.npar
        invariant Valid()
        invariant Renditions(c, Abs(), i) == Renditions(c, old(Abs()), 0)
      {
        if Given(parser, i) {
          SetRendition(Par(parser, i));
        }
        i := i + 1;
      }
      pen := PenFor(pen.attr);
    }

    // One parameter of csim().
    method SetRendition(par: nat)
      requires Valid()
      modifies `pen, `sets, `modes
      ensures Valid() && Abs() == Rendition(old(Abs()), par)
    {
      if par == 10 {
        sets := sets.(translate := sets.g[sets.use]);
        modes := modes.(dispCtrl := false, toggleMeta := false);
      } else if par == 11 || par == 12 {
        sets := sets.(translate := CodePage437);
        modes := modes.(dispCtrl := true, toggleMeta := par == 12);
      } else {
        pen := pen.(attr := RenditionAttr(pen.attr, par));
      }
    }

    // A count of a control sequence: at least one, and within `limit`.
    method Clamped(number0: nat, limit: int) returns (number: int)
      ensures number == AtMost(number0, limit)
    {
      number := number0;
      if number == 0 { number := 1; }
      if number > limit { number := limit; }
    }

    method CsiAt(number0: nat)
      requires Valid()
      modifies screen, `needWrap
      ensures Valid() && Abs() == InsertChars(c, old(Abs()), number0)
    {
      hide ScrollIn;
      var number := Clamped(number0, c.width - screen.cursorX);
      ScrollRegion(screen.cursorX, screen.cursorY, c.width - screen.cursorX - number, 1, number, 0);
      needWrap := false;
    }

    method CsiP(number0: nat)
      requires Valid()
      modifies screen
      ensures Valid() && Abs() == DeleteChars(c, old(Abs()), number0)
    {
      hide ScrollIn;
      var number := Clamped(number0, c.width - screen.cursorX);
      ScrollRegion(screen.cursorX + number, screen.cursorY, c.width - screen.cursorX - number, 1, 0 - number, 0);
    }

    method CsiL(number0: nat)
      requires Valid()
      modifies screen
      ensures Valid() && Abs() == InsertLines(c, old(Abs()), number0)
    {
      hide ScrollIn;
      if screen.cursorY >= bottom {
        return;
      }
      var number := Clamped(number0, bottom - screen.cursorY);
      ScrollRegion(0, screen.cursorY, c.width, bottom - screen.cursorY - number, 0, number);
    }

    method CsiM(number0: nat)
      requires Valid()
      modifies screen
      ensures Valid() && Abs() == DeleteLines(c, old(Abs()), number0)
    {
      hide ScrollIn;
      if screen.cursorY >= bottom {
        return;
      }
      var number := Clamped(number0, bottom - screen.cursorY);
      ScrollRegion(0, screen.cursorY + number, c.width, bottom - screen.cursorY - number, 0, 0 - number);
    }

    method CsiX(number0: nat)
      requires Valid()
      modifies screen
      ensures Valid() && Abs() == EraseChars(c, old(Abs()), number0)
    {
      var number := Clamped(number0, c.width - screen.cursorX);
      ClearRegion(screen.cursorX, screen.cursorY, number, 1);
    }

    method CsiJ(number: nat)
      requires Valid()
      modifies screen
      ensures Valid() && Abs() == EraseDisplay(c, old(Abs()), number)
    {
      hide Clear;
      if number == 0 {
        ClearRegion(screen.cursorX, screen.cursorY, c.width - screen.cursorX, 1);
        if screen.cursorY < c.height - 2 {
          ClearRegion(0, screen.cursorY + 1, c.width, c.height - screen.cursorY - 1);
        }
      } else if number == 1 {
        if screen.cursorY > 0 {
          ClearRegion(0, 0, c.width, screen.cursorY);
        }
        ClearRegion(0, screen.cursorY, screen.cursorX + 1, 1);
      } else if number == 2 {
        ClearRegion(0, 0, c.width, c.height);
      }
    }

    method CsiK(number: nat)
      requires Valid()
      modifies screen
      ensures Valid() && Abs() == EraseLine(c, old(Abs()), number)
    {
      if number == 0 {
        ClearRegion(screen.cursorX, screen.cursorY, c.width - screen.cursorX, 1);
      } else if number == 1 {
        ClearRegion(0, screen.cursorY, screen.cursorX + 1, 1);
      } else if number == 2 {
        ClearRegion(0, screen.cursorY, c.width, 1);
      }
    }

    // The control sequences that place the cursor.
    method CsiGotos(ch: CodeUnit)
      requires Valid()
      modifies screen, `needWrap
      ensures Valid() && Abs() == CsiGoto(c, old(Abs()), ch)
    {
      if 0x41 <= ch <= 0x44 || ch == 0x61 || ch == 0x65 {
        CsiRelative(ch);
      } else {
        CsiAbsolute(ch);
      }
    }

    method CsiRelative(ch: CodeUnit)
      requires Valid() && (0x41 <= ch <= 0x44 || ch == 0x61 || ch == 0x65)
      modifies screen, `needWrap
      ensures Valid() && Abs() == CsiGoto(c, old(Abs()), ch)
    {
      var n1: int := Par1(parser, 0);
      if ch == 0x41 { GotoXY(screen.cursorX, screen.cursorY - n1); }
      else if ch == 0x42 || ch == 0x65 { GotoXY(screen.cursorX, screen.cursorY + n1); }
      else if ch == 0x43 || ch == 0x61 { GotoXY(screen.cursorX + n1, screen.cursorY); }
      else if ch == 0x44 { GotoXY(screen.cursorX - n1, screen.cursorY); }
    }

    method CsiAbsolute(ch: CodeUnit)
      requires Valid() && !(0x41 <= ch <= 0x44 || ch == 0x61 || ch == 0x65)
      modifies screen, `needWrap
      ensures Valid() && Abs() == CsiGoto(c, old(Abs()), ch)
    {
      var n: int, n1: int := Par(parser, 0), Par1(parser, 0);
      if ch == 0x47 || ch == 0x60 { GotoXY(n - 1, screen.cursorY); }
      else if ch == 0x45 { GotoXY(0, screen.cursorY + n1); }
      else if ch == 0x46 { GotoXY(0, screen.cursorY - n1); }
      else if ch == 0x64 { GotoXaY(screen.cursorX, n - 1); }
      else if ch == 0x48 || ch == 0x66 { GotoXaY(Par(parser, 1) - 1, n - 1); }
    }

    // Those that move it by tabs or lines, or save it.
    method CsiTravels(ch: CodeUnit)
      requires Valid()
      modifies screen, `needWrap, `pen, `sets, `saved, `savedAlternate, `savedSets
      ensures Valid() && Abs() == CsiTravel(c, old(Abs()), ch)
    {
      var n1 := Par1(parser, 0);
      if ch == 0x49 { Ht(n1); }
      else if ch == 0x5A { Rt(n1); }
      else if ch == 0x53 { Lf(ClampCount(c, n1)); }
      else if ch == 0x54 { Ri(ClampCount(c, n1)); }
      else if ch == 0x73 { SaveCursor(); }
      else if ch == 0x75 { RestoreCursor(); }
    }

    // The control sequences that edit the screen.
    method CsiEdits(ch: CodeUnit)
      requires Valid()
      modifies screen, `needWrap
      ensures Valid() && Abs() == CsiEdit(c, old(Abs()), ch)
    {
      var n := Par(parser, 0);
      if ch == 0x40 { CsiAt(n); }
      else if ch == 0x4A { CsiJ(n); }
      else if ch == 0x4B { CsiK(n); }
      else if ch == 0x4C { CsiL(n); }
      else if ch == 0x4D { CsiM(n); }
      else if ch == 0x50 { CsiP(n); }
      else if ch == 0x58 { CsiX(n); }
    }

    method ClearTabStops()
      requires Valid()
      modifies `tabs
      ensures Valid() && Abs() == ClearTabs(c, old(Abs()))
    {
      if Par(parser, 0) == 0 {
        tabs := tabs[screen.cursorX := false];
      } else if Par(parser, 0) == 2 || Par(parser, 0) == 3 {
        tabs := map[];
        var i := 0;
        while i < c.width
          invariant 0 <= i <= c.width && tabs == NoTabs(i)
          invariant Framed(c, Abs())
        {
          tabs := tabs[i := false];
          i := i + 1;
        }
      }
    }

    method SetScrollRegion()
      requires Valid()
      modifies screen, `needWrap, `top, `bottom
      ensures Valid() && Abs() == SetRegion(c, old(Abs()))
    {
      var t := Par1(parser, 0);
      var b := if Par(parser, 1) == 0 then c.height else Par(parser, 1);
      if t < b && b <= c.height {
        top := t - 1;
        bottom := b;
        GotoXaY(0, 0);
      }
    }

    // The other control sequences.
    method CsiOthers(ch: CodeUnit)
      requires Valid()
      modifies screen, `needWrap, `pen, `sets, `saved, `savedAlternate, `savedSets, `modes, `parser, `tabs, `top,
               `bottom, `respondString
      ensures Valid() && Abs() == CsiOther(c, old(Abs()), ch)
      ensures !old(parser.question) && ch != 0x3B && !IsDigit(ch) ==>
        respondString == old(respondString + CsiAnswer(Abs(), parser, ch))
    {
      hide TermSpec.SetModes, Renditions, SetRegion, ClearTabs;
      var n := Par(parser, 0);
      if ch == 0x21 { parser := parser.(esc := Bang); }
      else if ch == 0x3E { if parser.npar == 0 { parser := parser.(esc := DeviceAttr); } }
      else if ch == 0x69 {
        if n == 4 { modes := modes.(printing := false); }
        else if n == 5 { modes := modes.(printing := true); }
      }
      else if ch == 0x6D { Csim(); }
      else if ch == 0x63 { if n == 0 { respondString := respondString + [DeviceId]; } }
      else if ch == 0x67 { ClearTabStops(); }
      else if ch == 0x68 { SetModes(true); }
      else if ch == 0x6C { SetModes(false); }
      else if ch == 0x6E {
        if n == 5 {
          respondString := respondString + [StatusOk];
        } else if n == 6 {
          respondString := respondString +
            [CursorAt(screen.cursorY + (if modes.offset then top + 1 else 1), screen.cursorX + 1)];
        }
      }
      else if ch == 0x72 { SetScrollRegion(); }
    }

    // The end of a control sequence.
    method CsiEnd(ch: CodeUnit) returns (lineBuf: seq<CodeUnit>)
      requires Valid() && ch != 0x3B && !IsDigit(ch)
      modifies this, screen
      ensures Valid() && (Abs(), lineBuf) == TermSpec.CsiEnd(c, old(Abs()), ch)
      ensures respondString == old(respondString + CsiAnswer(Abs(), parser, ch))
    {
      hide CsiPrivate, CsiGoto, CsiTravel, CsiEdit, CsiOther;
      lineBuf := [];
      SetParser(parser.(esc := Normal));
      if parser.question { PrivateModes(ch); }
      else if PlacesCursor(ch) { CsiGotos(ch); }
      else if Travels(ch) { CsiTravels(ch); }
      else if EditsScreen(ch) { CsiEdits(ch); }
      else if ch == 0x62 { lineBuf := RepeatLast(); }
      else { CsiOthers(ch); }
    }

    method PrivateModes(ch: CodeUnit)
      requires Valid()
      modifies screen, `needWrap, `pen, `sets, `saved, `savedAlternate, `savedSets, `modes, `parser
      ensures Valid() && Abs() == CsiPrivate(c, old(Abs()), ch)
    {
      if ch == 0x68 { SetModes(true); }
      else if ch == 0x6C { SetModes(false); }
      parser := parser.(question := false);
    }

    method RepeatLast() returns (lineBuf: seq<CodeUnit>)
      requires Valid()
      ensures lineBuf == Repeated(c, Abs())
    {
      var n := Par1(parser, 0);
      if n > c.width * c.height { n := c.width * c.height; }
      lineBuf := [];
      while |lineBuf| < n
        invariant |lineBuf| <= n && forall i :: 0 <= i < |lineBuf| ==> lineBuf[i] == last
      {
        lineBuf := lineBuf + [last];
      }
    }

    // A character of the parameters of a control sequence.
    method CsiParameter(ch: CodeUnit) returns (lineBuf: seq<CodeUnit>)
      requires Valid() && (parser.esc == GetPars || parser.esc == DeviceAttr)
      modifies this, screen
      ensures Valid() && (Abs(), lineBuf) == TermSpec.CsiParameter(c, old(Abs()), ch)
      ensures respondString == old(respondString + (
        if parser.esc == GetPars then CsiAnswer(Abs(), parser, ch)
        else if ch == 0x63 && Par(parser, 0) == 0 then [SecondaryId] else []))
    {
      lineBuf := [];
      if ch == 0x3B {
        parser := parser.(npar := parser.npar + 1);
      } else if IsDigit(ch) {
        parser := parser.(par := parser.par[parser.npar := 10 * Par(parser, parser.npar) + ch % 16]);
      } else if parser.esc == DeviceAttr {
        if ch == 0x63 && Par(parser, 0) == 0 {
          respondString := respondString + [SecondaryId];
        }
        parser := parser.(esc := Normal);
      } else {
        lineBuf := CsiEnd(ch);
      }
    }

    // The first character after CSI.
    method AfterCsi(ch: CodeUnit) returns (lineBuf: seq<CodeUnit>)
      requires Valid() && parser.esc == Square
      modifies this, screen
      ensures Valid() && (Abs(), lineBuf) == TermSpec.AfterCsi(c, old(Abs()), ch)
      ensures respondString == old(respondString) + (
        if ch == 0x5B || ch == 0x3F then [] else CsiAnswer(old(Abs()), Parser(GetPars, 0, map[], false), ch))
    {
      lineBuf := [];
      if ch == 0x5B {
        parser := Parser(FuncKey, 0, map[], parser.question);
      } else {
        SetParser(Parser(GetPars, 0, map[], ch == 0x3F));
        if ch != 0x3F {
          lineBuf := CsiParameter(ch);
        }
      }
    }

    method SetParser(p: Parser)
      requires Valid() && EscOk(p.esc)
      modifies `parser
      ensures Valid() && parser == p && Abs() == old(Abs()).(parser := p)
    {
      parser := p;
    }

    // The character after ESC.
    method AfterEscape(ch: CodeUnit)
      requires Valid() && parser.esc == Escape
      modifies this, screen
      ensures Valid() && Abs() == TermSpec.AfterEscape(c, old(Abs()), ch)
      ensures respondString == old(respondString) + (if ch == 0x5A then [DeviceId] else [])
    {
      hide TermSpec.SaveCursor, TermSpec.RestoreCursor, TermSpec.Lf, TermSpec.Cr, TermSpec.Ri, TermSpec.Reset;
      parser := parser.(esc := EscapeNext(ch));
      if ch == 0x37 { SaveCursor(); }
      else if ch == 0x38 { RestoreCursor(); }
      else if ch == 0x44 { Lf(1); }
      else if ch == 0x45 { Cr(); Lf(1); }
      else if ch == 0x4D { Ri(1); }
      else if ch == 0x48 { tabs := tabs[screen.cursorX := true]; }
      else if ch == 0x5A { respondString := respondString + [DeviceId]; }
      else if ch == 0x63 { Reset(); }
    }

    // A single character from G2 or G3.
    method SingleShift(ch0: CodeUnit) returns (lineBuf: seq<CodeUnit>)
      requires Valid() && parser.esc.Shift?
      modifies `parser, `last
      ensures Valid() && (Abs(), lineBuf) == TermSpec.SingleShift(c, old(Abs()), old(parser.esc.n), ch0)
    {
      var ch := ch0;
      lineBuf := [];
      if ch < 256 {
        ch := c.Lookup(sets.g[parser.esc.n + 2], if modes.toggleMeta && ch / 128 % 2 == 0 then ch + 128 else ch);
        if ch / 256 % 256 == 0xF0 {
          ch := ch % 256;
        } else if ch == 0xFEFF || 0x200A <= ch <= 0x200F {
          parser := parser.(esc := Normal);
          return;
        }
      }
      last := ch;
      lineBuf := [last];
      parser := parser.(esc := Normal);
    }

    // Sequences that set a charset or the encoding, and those not implemented.
    method ShortEscape(ch: CodeUnit)
      requires Valid()
      modifies `parser, `modes, `sets
      ensures Valid() && Abs() == InShortEscape(c, old(Abs()), ch)
    {
      if parser.esc == Percent {
        if ch == 0x40 {
          modes := modes.(utf := false);
        } else if ch == 0x47 || ch == 0x38 {
          modes := modes.(utf := true);
        }
      } else if parser.esc.SetG? {
        sets := SetCharset(sets, parser.esc.n, ch);
      }
      parser := ShortParser(parser, ch);
    }

    // The next character of an escape sequence.
    method EscapeSequence(ch: CodeUnit) returns (lineBuf: seq<CodeUnit>)
      requires Valid() && !modes.printing && !ControlMoves(ch) && !ControlsState(ch)
      modifies this, screen
      ensures Valid() && (Abs(), lineBuf) == InEscape(c, old(Abs()), ch)
      ensures respondString == old(respondString + Answers(Abs(), ch))
    {
      hide TermSpec.AfterEscape, TermSpec.AfterCsi, TermSpec.CsiParameter, TermSpec.SingleShift, InShortEscape;
      lineBuf := [];
      if parser.esc == Escape { AfterEscape(ch); }
      else if parser.esc == Square { lineBuf := AfterCsi(ch); }
      else if parser.esc == GetPars || parser.esc == DeviceAttr { lineBuf := CsiParameter(ch); }
      else if parser.esc.Shift? { lineBuf := SingleShift(ch); }
      else { ShortEscape(ch); }
    }

    method ControlMoving(ch: CodeUnit)
      requires Valid()
      modifies screen, `needWrap
      ensures Valid() && Abs() == ControlMove(c, old(Abs()), ch)
    {
      if ch == 0x08 { Bs(); }
      else if ch == 0x09 { Ht(1); }
      else if ch == 0x0A || ch == 0x0B || ch == 0x0C || ch == 0x84 {
        Lf(1);
        if modes.crLf { Cr(); }
      }
      else if ch == 0x0D { Cr(); }
      else if ch == 0x85 { Cr(); Lf(1); }
      else if ch == 0x8D { Ri(1); }
    }

    method ControlSetting(ch: CodeUnit)
      requires Valid()
      modifies `sets, `modes, `parser, `tabs, `respondString
      ensures Valid() && Abs() == ControlState(c, old(Abs()), ch)
      ensures respondString == old(respondString) + (if ch == 0x9A then [DeviceId] else [])
    {
      if ch == 0x0E {
        sets := sets.(use := 1, translate := sets.g[1]);
        modes := modes.(dispCtrl := true);
      } else if ch == 0x0F {
        sets := sets.(use := 0, translate := sets.g[0]);
        modes := modes.(dispCtrl := false);
      }
      else if ch == 0x18 || ch == 0x1A { parser := parser.(esc := Normal); }
      else if ch == 0x1B { parser := parser.(esc := Escape); }
      else if ch == 0x88 { tabs := tabs[screen.cursorX := true]; }
      else if ch == 0x8E { parser := parser.(esc := Shift(0)); }
      else if ch == 0x8F { parser := parser.(esc := Shift(1)); }
      else if ch == 0x9A { respondString := respondString + [DeviceId]; }
      else if ch == 0x9B { parser := parser.(esc := Square); }
    }

    // While printing, only the sequence that turns the printer off matters.
    method SendControlToPrinter(ch: CodeUnit)
      requires Valid()
      modifies `parser, `modes
      ensures Valid() && Abs() == Printer(c, old(Abs()), ch)
    {
      if StopsPrinter(parser, ch) {
        modes := modes.(printing := false);
      }
      parser := PrinterParser(parser, ch);
    }

    /** Acts on a control character; returns text to process in its place. */
    method DoControl(ch: CodeUnit) returns (lineBuf: seq<CodeUnit>)
      requires Valid()
      modifies this, screen
      ensures Valid() && (Abs(), lineBuf) == Control(c, old(Abs()), ch)
      ensures respondString == old(respondString + Answers(Abs(), ch))
    {
      lineBuf := [];
      if modes.printing { SendControlToPrinter(ch); }
      else if ControlMoves(ch) { ControlMoving(ch); }
      else if ControlsState(ch) { ControlSetting(ch); }
      else if ch == 0x07 && parser.esc != Status { /* beep */ }
      else { lineBuf := EscapeSequence(ch); }
    }

    /** Draws text at the cursor, cut off at the right border. */
    method RenderString(s0: seq<CodeUnit>)
      requires Valid()
      modifies screen
      ensures Valid() && Abs() == Drawn(c, old(Abs()), s0)
    {
      if modes.printing {
        return;
      }
      var s, incX := s0, |s0|;
      if incX > c.width - screen.cursorX {
        incX := c.width - screen.cursorX;
        s := s[..incX - 1] + [s[|s| - 1]];
      }
      screen.PutString(screen.cursorX, screen.cursorY, s, pen.color, pen.style);
    }

    // The wrap that is due, and room for one character in insert mode.
    method PrepareDrawing(buf: seq<CodeUnit>) returns (lineBuf: seq<CodeUnit>)
      requires Valid() && !modes.printing
      modifies screen, `needWrap
      ensures Valid() && Drawn(c, Abs(), lineBuf) == Prepared(c, Drawn(c, old(Abs()), buf))
      ensures modes == old(modes) && pen == old(pen)
    {
      hide Goto, Scroll, Fitting, Splice, TermSpec.Lf;
      lineBuf := buf;
      if (needWrap || modes.insert) && lineBuf != [] {
        RenderString(lineBuf);
        lineBuf := [];
      }
      DrawnNothing(c, Abs());
      if needWrap {
        Cr();
        Lf(1);
      }
      if modes.insert {
        ScrollRegion(screen.cursorX, screen.cursorY, c.width - screen.cursorX - 1, 1, 1, 0);
      }
      DrawnNothing(c, Abs());
    }

    // A character to draw; it is only added to the pending ones.
    method DrawChar(ch: CodeUnit, buf: seq<CodeUnit>) returns (lineBuf: seq<CodeUnit>)
      requires Valid()
      modifies screen, `needWrap, `last
      ensures Valid() && Drawn(c, Abs(), lineBuf) == Draw(c, Drawn(c, old(Abs()), buf), ch)
    {
      lineBuf := buf;
      if !modes.printing {
        lineBuf := PrepareDrawing(lineBuf);
        DrawExtends(c, Abs(), lineBuf, ch);
      }
      last := ch;
      lineBuf := lineBuf + [last];
      if !modes.printing && screen.cursorX + |lineBuf| >= c.width {
        needWrap := modes.autoWrap;
      }
    }

    // A byte of a UTF-8 sequence; returns the character that it completes.
    method DecodeByte(ch: CodeUnit) returns (glyph: Glyph)
      requires Valid()
      modifies `utf
      ensures Valid() && (utf, glyph) == Decode(old(utf), ch)
      ensures Abs() == old(Abs()).(utf := utf)
    {
      glyph := Nothing;
      if ch > 0x7F {
        if utf.count > 0 && Continues(ch) {
          utf := Utf(utf.count - 1, utf.ch * 64 + ch % 64);
          if utf.count == 0 {
            glyph := Glyph(if utf.ch > 0xFFFF then 0xFFFD else utf.ch);
          }
        } else {
          var start := StartUtf(ch);
          utf := if start.count > 0 then start else utf.(count := 0);
        }
      } else {
        utf := utf.(count := 0);
        glyph := Glyph(ch);
      }
    }

    // A character, after decoding.
    method ReceiveChar(ch0: CodeUnit, buf: seq<CodeUnit>) returns (lineBuf: seq<CodeUnit>, expand: seq<CodeUnit>)
      requires Valid()
      modifies this, screen
      ensures Valid() && (Drawn(c, Abs(), lineBuf), expand) == Act(c, Drawn(c, old(Abs()), buf), ch0)
      ensures expand != [] ==> lineBuf == []
      ensures respondString == old(respondString) + Reacts(Drawn(c, old(Abs()), buf), ch0)
    {
      hide Control, Draw, Answers, IsNormal, Fitting, Splice;
      var ch := ch0;
      lineBuf, expand := buf, [];
      if IsNormal(modes, ch) && parser.esc == Normal {
        if ch < 256 {
          ch := c.Lookup(sets.translate, if modes.toggleMeta && ch / 128 % 2 == 0 then ch + 128 else ch);
        }
        if ch / 256 % 256 == 0xF0 {
          ch := ch % 256;
        } else if ch == 0xFEFF || 0x200A <= ch <= 0x200F {
          return;
        }
        lineBuf := DrawChar(ch, lineBuf);
      } else {
        DrawnNothing(c, Abs());
        if lineBuf != [] {
          RenderString(lineBuf);
          lineBuf := [];
        }
        expand := DoControl(ch);
        DrawnNothing(c, Abs());
      }
    }

    // A character of the input.
    method Receive(ch0: CodeUnit, buf: seq<CodeUnit>) returns (lineBuf: seq<CodeUnit>, expand: seq<CodeUnit>)
      requires Valid()
      modifies this, screen
      ensures Valid() && (Drawn(c, Abs(), lineBuf), expand) == Feed(c, Drawn(c, old(Abs()), buf), ch0)
      ensures expand != [] ==> lineBuf == []
      ensures respondString == old(respondString) + Reply(Drawn(c, old(Abs()), buf), ch0)
    {
      hide Act, Reacts, Decode, Fitting, Splice;
      var ch := ch0;
      lineBuf, expand := buf, [];
      if modes.utf {
        var glyph := DecodeByte(ch);
        if glyph.Nothing? {
          return;
        }
        ch := glyph.ch;
      }
      lineBuf, expand := ReceiveChar(ch, lineBuf);
    }

    // A character of the input, and the text that it stands for, if any.
    method ReceiveExpanded(ch: CodeUnit, buf: seq<CodeUnit>, ghost nested: bool) returns (lineBuf: seq<CodeUnit>)
      requires Valid() && (nested ==> Feed(c, Drawn(c, Abs(), buf), ch).1 == [])
      modifies this, screen
      ensures Valid() && Drawn(c, Abs(), lineBuf) == Step(c, Drawn(c, old(Abs()), buf), ch, nested)
      ensures respondString == old(respondString) + StepReplies(c, Drawn(c, old(Abs()), buf), ch, nested)
      decreases !nested, 0
    {
      hide Feed, Drawn, Process, Replies, Sound, Framed, Quiet;
      ValidSound();
      ghost var t := Drawn(c, Abs(), buf);
      FeedExpands(c, t, ch);
      var expand: seq<CodeUnit>;
      lineBuf, expand := Receive(ch, buf);
      ValidSound();
      DrawnNothing(c, Abs());
      if expand != [] {
        var r := respondString;
        var more := VT100(expand, true);
        respondString := r + more;
        ValidSound();
        DrawnNothing(c, Abs());
      }
    }

    /** Processes input, and returns what is to be sent back.  Characters to draw
        are collected and drawn together; what shows in the end is the same as if
        they were drawn one by one.  A control sequence that stands for text
        calls this method again, once: a `nested` call never does. */
    method VT100(s: seq<CodeUnit>, ghost nested: bool) returns (response: seq<Answer>)
      requires Valid() && (nested ==> Quiet(Abs(), s))
      modifies this, screen
      ensures Valid() && Abs() == Process(c, old(Abs()), s, nested)
      ensures response == respondString == Replies(c, old(Abs()), s, nested)
      decreases !nested, 1
    {
      hide Feed, Drawn, Process, Replies, Step, StepReplies, Sound, Framed, Quiet;
      ghost var t0 := Abs();
      ValidSound();
      ProcessNothing(c, t0, nested);
      DrawnNothing(c, Abs());
      assert s[..0] == [];
      respondString := [];
      var lineBuf: seq<CodeUnit> := [];
      var i := 0;
      while i < |s|
        invariant i <= |s| && Valid() && Sound(c, t0)
        invariant Sound(c, Abs()) && Drawn(c, Abs(), lineBuf) == Process(c, t0, s[..i], nested)
        invariant respondString == Replies(c, t0, s[..i], nested)
      {
        ProcessNext(c, t0, s, i, nested);
        if nested {
          QuietSteps(c, t0, s, i);
        }
        lineBuf := ReceiveExpanded(s[i], lineBuf, nested);
        ValidSound();
        i := i + 1;
      }
      assert s[..i] == s;
      DrawnNothing(c, Abs());
      if lineBuf != [] {
        RenderString(lineBuf);
      }
      response := respondString;
    }
  }
}
