/** clike.js: the editor mode for C-like languages keeps a stack of contexts, from
    which it indents lines. */
module Clike {
  import opened Bytes

  // The types of tokens that matter; Plain is any other, comments aside.
  datatype Token = Semicolon | Colon | OpenBrace | CloseBrace | OpenBracket | CloseBracket | OpenParen | CloseParen
                 | Plain | Comment

  datatype Kind = Statement | Brace | Bracket | Paren

  /** Linked contexts, the innermost first.  The outermost one has no kind. */
  datatype Context =
    | Top(indented: int, align: Option<bool>)
    | Inner(indented: int, column: nat, kind: Kind, align: Option<bool>, prev: Context)

  predicate Is(c: Context, kind: Kind) {
    c.Inner? && c.kind == kind
  }

  // A statement context only ever lies on that of a block.
  predicate Sound(c: Context) {
    c.Inner? ==> Sound(c.prev) && (c.kind == Statement ==> Is(c.prev, Brace))
  }

  /** The kinds of the contexts that are not statements, the innermost first. */
  function Brackets(c: Context): seq<Kind> {
    if c.Top? then [] else if c.kind == Statement then Brackets(c.prev) else [c.kind] + Brackets(c.prev)
  }

  function Bottom(c: Context): int {
    if c.Top? then c.indented else Bottom(c.prev)
  }

  function Opens(t: Token): Option<Kind> {
    match t
    case OpenBrace => Some(Brace)
    case OpenBracket => Some(Bracket)
    case OpenParen => Some(Paren)
    case _ => None
  }

  function Closes(t: Token): Option<Kind> {
    match t
    case CloseBrace => Some(Brace)
    case CloseBracket => Some(Bracket)
    case CloseParen => Some(Paren)
    case _ => None
  }

  /** Matching of brackets: the open ones after another token, unless it closes one
      that is not the innermost. */
  function Match(open: seq<Kind>, t: Token): Option<seq<Kind>> {
    if Opens(t).Some? then Some([Opens(t).value] + open)
    else if Closes(t) == None then Some(open)
    else if open != [] && open[0] == Closes(t).value then Some(open[1..])
    else None
  }

  function MatchAll(open: seq<Kind>, s: seq<Token>): Option<seq<Kind>> {
    if s == [] then Some(open)
    else
      match MatchAll(open, s[..|s| - 1])
      case None => None
      case Some(before) => Match(before, s[|s| - 1])
  }

  // What the stream says about a token.
  datatype Place = Place(startOfLine: bool, indentation: nat, column: nat)

  function PopIf(c: Context, kind: Kind): Context {
    if Is(c, kind) then c.prev else c
  }

  // The context after a token, its alignment aside.
  function Nest(c: Context, indented: int, column: nat, t: Token): Context {
    if (t == Semicolon || t == Colon) && Is(c, Statement) then c.prev
    else if Opens(t).Some? then Inner(indented, column, Opens(t).value, None, c)
    else if t == CloseBrace then PopIf(PopIf(PopIf(c, Statement), Brace), Statement)
    else if Closes(t).Some? && Is(c, Closes(t).value) then c.prev
    else if Is(c, Brace) then Inner(indented, column, Statement, None, c)
    else c
  }

  function Aligned(c: Context, align: bool): Context {
    if c.align == None then c.(align := Some(align)) else c
  }

  // A token, and where it is.
  datatype Placed = Placed(token: Token, place: Place)

  function Step(c0: Context, indented: int, x: Placed): Context {
    var c := if x.place.startOfLine then Aligned(c0, false) else c0;
    if x.token == Comment then c
    else Nest(Aligned(c, true), if x.place.startOfLine then x.place.indentation else indented, x.place.column, x.token)
  }

  // Whether a line ends what the context is for.
  predicate Ends(c: Context, first: Token) {
    c.Inner? && Closes(first) == Some(c.kind)
  }

  // Where a line starts, from its context and its first token.
  function Indentation(c: Context, first: Token, unit: nat): int {
    var column := if c.Inner? then c.column else 0;
    if Is(c, Statement) then c.indented + (if first == OpenBrace then 0 else unit)
    else if Ends(c, first) then (if c.align == Some(true) then column else c.indented)
    else if c.align == Some(true) then column + 1
    else c.indented + unit
  }

  class Mode {
    var context: Context
    var indented: int
    var startOfLine: bool

    constructor (basecolumn: int, indentUnit: nat)
      ensures context == Top(basecolumn - indentUnit, Some(false)) && indented == 0
    {
      context, indented, startOfLine := Top(basecolumn - indentUnit, Some(false)), 0, true;
    }

    method PushContext(column: nat, kind: Kind)
      modifies `context
      ensures context == Inner(indented, column, kind, None, old(context))
    {
      context := Inner(indented, column, kind, None, context);
    }

    // Only called where there is something below.
    method PopContext()
      requires context.Inner?
      modifies `context
      ensures context == old(context).prev
    {
      context := context.prev;
    }

    method PopContextIf(kind: Kind)
      modifies `context
      ensures context == PopIf(old(context), kind)
    {
      if Is(context, kind) {
        PopContext();
      }
    }

    /** The next token, or blank space. */
    method Token(p: Place, space: bool, t: Token)
      modifies this
      ensures context == Step(old(context), old(indented), Placed(if space then Comment else t, p))
      ensures indented == if p.startOfLine then p.indentation else old(indented)
    {
      if p.startOfLine {
        if context.align == None {
          context := context.(align := Some(false));
        }
        indented := p.indentation;
        startOfLine := true;
      }
      if space || t == Comment {
        return;
      }
      if context.align == None {
        context := context.(align := Some(true));
      }
      if (t == Semicolon || t == Colon) && Is(context, Statement) {
        PopContext();
      } else if t == OpenBrace {
        PushContext(p.column, Brace);
      } else if t == OpenBracket {
        PushContext(p.column, Bracket);
      } else if t == OpenParen {
        PushContext(p.column, Paren);
      } else if t == CloseBrace {
        PopContextIf(Statement);
        PopContextIf(Brace);
        PopContextIf(Statement);
      } else if (t == CloseBracket && Is(context, Bracket)) || (t == CloseParen && Is(context, Paren)) {
        PopContext();
      } else if Is(context, Brace) {
        PushContext(p.column, Statement);
      }
      startOfLine := false;
    }

    /** The indentation of a line that starts with `first`. */
    method Indent(inToken: bool, first: Token, indentUnit: nat) returns (columns: int)
      ensures columns == if inToken then 0 else Indentation(context, first, indentUnit)
    {
      if inToken {
        return 0;
      }
      var closing := context.Inner? && Closes(first) == Some(context.kind);
      if Is(context, Statement) {
        columns := context.indented + if first == OpenBrace then 0 else indentUnit;
      } else if context.align == Some(true) {
        columns := (if context.Inner? then context.column else 0) + if closing then 0 else 1;
      } else {
        columns := context.indented + if closing then 0 else indentUnit;
      }
    }
  }

  // ---- Brackets ----

  // The context and the line's indentation after a text.
  function Contexts(c: Context, indented: int, s: seq<Placed>): (Context, int) {
    if s == [] then (c, indented)
    else
      var (before, n) := Contexts(c, indented, s[..|s| - 1]);
      var x := s[|s| - 1];
      (Step(before, n, x), if x.place.startOfLine then x.place.indentation else n)
  }

  function Tokens(s: seq<Placed>): seq<Token> {
    if s == [] then [] else Tokens(s[..|s| - 1]) + [s[|s| - 1].token]
  }

  lemma AlignedKeeps(c: Context, align: bool)
    ensures var a := Aligned(c, align);
      (Sound(c) ==> Sound(a)) && Brackets(a) == Brackets(c) && Bottom(a) == Bottom(c)
  {
  }

  lemma PopKeeps(c: Context, kind: Kind)
    requires Sound(c)
    ensures var n := PopIf(c, kind);
      && Sound(n) && Bottom(n) == Bottom(c)
      && Brackets(n) == (if Is(c, kind) && kind != Statement then Brackets(c)[1..] else Brackets(c))
      && (kind == Statement ==> !Is(n, Statement))
  {
    if Is(c, kind) {
      assert Brackets(c) == if kind == Statement then Brackets(c.prev) else [kind] + Brackets(c.prev);
    }
  }

  // The innermost bracket, below a statement if there is one.
  lemma Innermost(c: Context)
    requires !Is(c, Statement)
    ensures Brackets(c) == if c.Top? then [] else [c.kind] + Brackets(c.prev)
  {
  }

  lemma CloseKeeps(c: Context)
    requires Sound(c)
    ensures var n := PopIf(PopIf(PopIf(c, Statement), Brace), Statement);
      && Sound(n) && Bottom(n) == Bottom(c)
      && (Match(Brackets(c), CloseBrace).Some? ==> Brackets(n) == Match(Brackets(c), CloseBrace).value)
  {
    hide Sound, Brackets, Bottom, PopIf;
    var c1 := PopIf(c, Statement);
    PopKeeps(c, Statement);
    Innermost(c1);
    PopKeeps(c1, Brace);
    PopKeeps(PopIf(c1, Brace), Statement);
  }

  lemma NestKeeps(c: Context, indented: int, column: nat, t: Token)
    requires Sound(c)
    ensures var n := Nest(c, indented, column, t);
      && Sound(n) && Bottom(n) == Bottom(c)
      && (t != Comment && Match(Brackets(c), t).Some? ==> Brackets(n) == Match(Brackets(c), t).value)
  {
    if t == CloseBrace {
      hide PopIf;
      CloseKeeps(c);
    } else if Closes(t).Some? {
      PopKeeps(c, Closes(t).value);
      if !Is(c, Statement) {
        Innermost(c);
      } else {
        assert Is(c.prev, Brace) && Brackets(c) == Brackets(c.prev);
        Innermost(c.prev);
      }
    }
  }

  lemma StepKeeps(c: Context, indented: int, x: Placed)
    requires Sound(c)
    ensures var n := Step(c, indented, x);
      && Sound(n) && Bottom(n) == Bottom(c)
      && (Match(Brackets(c), x.token).Some? ==> Brackets(n) == Match(Brackets(c), x.token).value)
  {
    hide Nest;
    AlignedKeeps(c, false);
    var c1 := if x.place.startOfLine then Aligned(c, false) else c;
    AlignedKeeps(c1, true);
    NestKeeps(Aligned(c1, true), if x.place.startOfLine then x.place.indentation else indented, x.place.column, x.token);
  }

  /** As long as brackets match, the contexts are the open brackets, with at most a
      statement above each block; and whatever the text, the outermost context is
      never left. */
  lemma {:induction false} ContextsMatch(c: Context, indented: int, s: seq<Placed>)
    requires Sound(c)
    ensures var n := Contexts(c, indented, s).0;
      && Sound(n) && Bottom(n) == Bottom(c)
      && (MatchAll(Brackets(c), Tokens(s)).Some? ==> Brackets(n) == MatchAll(Brackets(c), Tokens(s)).value)
    decreases |s|
  {
    hide Step, Match;
    if s != [] {
      var init, x := s[..|s| - 1], s[|s| - 1];
      ContextsMatch(c, indented, init);
      StepKeeps(Contexts(c, indented, init).0, Contexts(c, indented, init).1, x);
      assert Tokens(s)[..|Tokens(s)| - 1] == Tokens(init);
    }
  }

  // ---- What lies below ----

  // The context without a statement on top, and with its alignment left open.
  function Core(c: Context): Context {
    PopIf(c, Statement)
  }

  function Bare(c: Context): Context {
    Core(c).(align := None)
  }

  // The context that `k` brackets above are dropped from, with their statements.
  function Drop(c: Context, k: nat): Context
    requires k <= |Brackets(c)|
    decreases k
  {
    if k == 0 then c
    else
      CoreInner(c);
      Drop(Core(c).prev, k - 1)
  }

  lemma CoreInner(c: Context)
    ensures Brackets(Core(c)) == Brackets(c)
    ensures Brackets(c) != [] && !Is(Core(c), Statement) ==> Core(c).Inner? && Brackets(c) == [Core(c).kind] + Brackets(Core(c).prev)
  {
  }

  lemma AlignedDrop(c: Context, align: bool, k: nat)
    requires k <= |Brackets(c)|
    ensures Brackets(Aligned(c, align)) == Brackets(c)
    ensures Drop(Aligned(c, align), k) == if k == 0 then Aligned(c, align) else Drop(c, k)
  {
    AlignedKeeps(c, align);
  }

  lemma CoreDrop(c: Context, k: nat)
    requires Sound(c) && k <= |Brackets(c)|
    ensures Brackets(Core(c)) == Brackets(c) && Core(Core(c)) == Core(c)
    ensures Drop(Core(c), k) == if k == 0 then Core(c) else Drop(c, k)
  {
    CoreInner(c);
  }

  // Tokens that leave a statement below them alone: those within brackets, and those
  // that do not end it.
  predicate Within(c: Context, b: seq<Kind>, t: Token)
    requires Match(b, t).Some?
  {
    var after := Match(b, t).value;
    if b != [] then after != [] || t != CloseBrace else Is(c, Statement) && t != Semicolon && t != Colon
  }

  lemma PlainDrop(c: Context, indented: int, column: nat, t: Token, k: nat)
    requires Sound(c) && k <= |Brackets(c)| && Opens(t) == None && Closes(t) == None
    ensures var n := Nest(c, indented, column, t);
      && Brackets(n) == Brackets(c) && Core(Drop(n, k)) == Core(Drop(c, k))
      && (k > 0 || (Is(c, Statement) && t != Semicolon && t != Colon) ==> Drop(n, k) == Drop(c, k))
  {
    var n := Nest(c, indented, column, t);
    assert Core(n) == Core(c);
    CoreInner(c);
    CoreInner(n);
  }

  lemma ClosedDrop(c: Context, indented: int, column: nat, t: Token, k: nat)
    requires Sound(c) && Closes(t).Some? && 0 < k <= |Brackets(c)| && Brackets(c)[0] == Closes(t).value
    ensures var n := Nest(c, indented, column, t);
      && Brackets(n) == Brackets(c)[1..] && Core(Drop(n, k - 1)) == Core(Drop(c, k))
      && (k > 1 || t != CloseBrace ==> Drop(n, k - 1) == Drop(c, k))
  {
    CoreInner(c);
    Innermost(Core(c));
    assert Core(c).kind == Closes(t).value;
    CoreDrop(Core(c).prev, k - 1);
  }

  lemma NestDrop(c: Context, indented: int, column: nat, t: Token, b: seq<Kind>, open: seq<Kind>)
    requires Sound(c) && Brackets(c) == b + open && Match(b, t).Some? && t != Comment
    ensures var n := Nest(c, indented, column, t); var after := Match(b, t).value;
      && Brackets(n) == after + open && Core(Drop(n, |after|)) == Core(Drop(c, |b|))
      && (Within(c, b, t) ==> Drop(n, |after|) == Drop(c, |b|))
  {
    hide Drop, Sound;
    if Opens(t).Some? {
      OpenedDrop(c, indented, column, Opens(t).value, |b|);
      assert [Opens(t).value] + b + open == [Opens(t).value] + (b + open);
    } else if Closes(t).Some? {
      assert Brackets(c)[0] == b[0] && (b + open)[1..] == b[1..] + open;
      ClosedDrop(c, indented, column, t, |b|);
    } else {
      PlainDrop(c, indented, column, t, |b|);
    }
  }

  lemma OpenedDrop(c: Context, indented: int, column: nat, kind: Kind, k: nat)
    requires kind != Statement && k <= |Brackets(c)|
    ensures var n := Inner(indented, column, kind, None, c);
      Brackets(n) == [kind] + Brackets(c) && Drop(n, k + 1) == Drop(c, k)
  {
  }

  function NextAlign(align: Option<bool>, x: Placed): Option<bool> {
    if align.Some? then align
    else if x.place.startOfLine then Some(false)
    else if x.token == Comment then None else Some(true)
  }

  // A context once a token was seen in it.
  function Seen(c: Context, x: Placed): Context {
    var c1 := if x.place.startOfLine then Aligned(c, false) else c;
    if x.token == Comment then c1 else Aligned(c1, true)
  }

  lemma SeenDrop(c: Context, x: Placed, k: nat)
    requires Sound(c) && k <= |Brackets(c)|
    ensures var n := Seen(c, x);
      && Sound(n) && Brackets(n) == Brackets(c) && Is(n, Statement) == Is(c, Statement)
      && Drop(n, k) == if k > 0 then Drop(c, k) else c.(align := NextAlign(c.align, x))
  {
    hide Drop, Sound, Brackets;
    var c1 := if x.place.startOfLine then Aligned(c, false) else c;
    AlignedKeeps(c, false);
    AlignedKeeps(c1, true);
    AlignedDrop(c, false, k);
    AlignedDrop(c1, true, k);
    DropNone(c);
  }

  lemma DropNone(c: Context)
    ensures Drop(c, 0) == c
  {
  }

  lemma StepSeen(c: Context, indented: int, x: Placed)
    ensures Step(c, indented, x)
      == if x.token == Comment then Seen(c, x)
         else Nest(Seen(c, x), if x.place.startOfLine then x.place.indentation else indented, x.place.column, x.token)
  {
    hide Nest;
  }

  lemma StepRestores(c: Context, n: Context, b: seq<Kind>, indented: int, x: Placed)
    requires Sound(n) && Brackets(n) == b + Brackets(c) && Match(b, x.token).Some? && Bare(Drop(n, |b|)) == Bare(c)
    ensures var r := Step(n, indented, x); var after := Match(b, x.token).value;
      Sound(r) && Brackets(r) == after + Brackets(c) && Bare(Drop(r, |after|)) == Bare(c)
  {
    var n1 := Seen(n, x);
    SeenDrop(n, x, |b|);
    DropNone(n);
    StepKeeps(n, indented, x);
    StepSeen(n, indented, x);
    assert Bare(Drop(n1, |b|)) == Bare(c);
    if x.token != Comment {
      NestDrop(n1, if x.place.startOfLine then x.place.indentation else indented, x.place.column, x.token,
               b, Brackets(c));
    }
  }

  /** A text whose brackets match restores the context that it started in, whatever
      that was, up to a statement on top: nothing below is touched. */
  lemma {:induction false} BracketsRestore(c: Context, indented: int, s: seq<Placed>)
    requires Sound(c) && MatchAll([], Tokens(s)).Some?
    ensures var n := Contexts(c, indented, s).0; var b := MatchAll([], Tokens(s)).value;
      Sound(n) && Brackets(n) == b + Brackets(c) && Bare(Drop(n, |b|)) == Bare(c)
    decreases |s|
  {
    hide Step, Match, Sound;
    if s == [] {
      assert [] + Brackets(c) == Brackets(c);
      DropNone(c);
    } else {
      var init, x := s[..|s| - 1], s[|s| - 1];
      assert Tokens(s)[..|Tokens(s)| - 1] == Tokens(init);
      BracketsRestore(c, indented, init);
      var (n, k) := Contexts(c, indented, init);
      StepRestores(c, n, MatchAll([], Tokens(init)).value, k, x);
    }
  }

  // ---- Indentation ----

  /** How the first token behind a bracket aligns its lines, unless that is decided
      already: a comment alone does not, unless it starts a line. */
  function AlignAfter(align: Option<bool>, s: seq<Placed>): Option<bool> {
    if s == [] then align else NextAlign(AlignAfter(align, s[..|s| - 1]), s[|s| - 1])
  }

  // An open bracket, and what is known of the contexts above it.
  ghost predicate Above(bracket: Context, align: Option<bool>, n: Context, b: seq<Kind>) {
    && Sound(n) && Brackets(n) == b + Brackets(bracket)
    && Core(Drop(n, |b|)) == bracket.(align := align)
    && (b != [] || Is(n, Statement) ==> align.Some?)
  }

  lemma StepAbove(bracket: Context, align: Option<bool>, n: Context, b: seq<Kind>, indented: int, x: Placed)
    requires Above(bracket, align, n, b) && !Is(bracket, Statement) && Match(b, x.token).Some?
    ensures Above(bracket, NextAlign(align, x), Step(n, indented, x), Match(b, x.token).value)
  {
    var n1 := Seen(n, x);
    SeenDrop(n, x, |b|);
    StepKeeps(n, indented, x);
    StepSeen(n, indented, x);
    if b == [] && !Is(n, Statement) {
      assert n == bracket.(align := align);
    }
    assert Core(Drop(n1, |b|)) == bracket.(align := NextAlign(align, x));
    if x.token != Comment {
      NestDrop(n1, if x.place.startOfLine then x.place.indentation else indented, x.place.column, x.token,
               b, Brackets(bracket));
    }
  }

  /** While a bracket is open, its context lies below those of the brackets in it, with
      the alignment that the first token gave it, whatever text there is; so does the
      outermost context. */
  lemma {:induction false} BracketKept(bracket: Context, indented: int, s: seq<Placed>)
    requires Sound(bracket) && !Is(bracket, Statement) && MatchAll([], Tokens(s)).Some?
    ensures Above(bracket, AlignAfter(bracket.align, s), Contexts(bracket, indented, s).0, MatchAll([], Tokens(s)).value)
    decreases |s|
  {
    hide Step, Match, Above;
    if s == [] {
      BracketAlone(bracket);
    } else {
      var init, x := s[..|s| - 1], s[|s| - 1];
      assert Tokens(s)[..|Tokens(s)| - 1] == Tokens(init);
      BracketKept(bracket, indented, init);
      var (n, k) := Contexts(bracket, indented, init);
      StepAbove(bracket, AlignAfter(bracket.align, init), n, MatchAll([], Tokens(init)).value, k, x);
    }
  }

  lemma BracketAlone(bracket: Context)
    requires Sound(bracket) && !Is(bracket, Statement)
    ensures Above(bracket, bracket.align, bracket, [])
  {
    assert [] + Brackets(bracket) == Brackets(bracket);
    assert bracket.(align := bracket.align) == bracket;
  }

  /** Whether a statement of the block that the text starts in has begun and not ended:
      a semicolon or a colon ends one, or else begins one, and so does the brace that
      closes a block in it. */
  predicate InStatement(s: seq<Placed>)
    requires MatchAll([], Tokens(s)).Some?
    decreases |s|
  {
    s != [] &&
    var init, t := s[..|s| - 1], s[|s| - 1].token;
    assert Tokens(s)[..|Tokens(s)| - 1] == Tokens(init);
    var b := MatchAll([], Tokens(init)).value;
    if b == [] && (t == Semicolon || t == Colon) then !InStatement(init)
    else if b == [] && t == Plain then true
    else if |b| == 1 && t == CloseBrace then false
    else InStatement(init)
  }

  // What a token does to the statement of the block that `b` brackets are open in.
  lemma NestStates(c: Context, indented: int, column: nat, t: Token, b: seq<Kind>, open: seq<Kind>)
    requires Sound(c) && Brackets(c) == b + open && Match(b, t).Some? && t != Comment
    ensures var n := Nest(c, indented, column, t); var after := Match(b, t).value;
      var was, block := Is(Drop(c, |b|), Statement), Is(Core(Drop(c, |b|)), Brace);
      && Brackets(n) == after + open
      && (Is(Drop(n, |after|), Statement) <==>
            if b == [] && (t == Semicolon || t == Colon) then block && !was
            else if b == [] && t == Plain then block
            else if |b| == 1 && t == CloseBrace then false
            else was)
  {
    NestDrop(c, indented, column, t, b, open);
    var n := Nest(c, indented, column, t);
    if Opens(t).Some? {
      OpenedDrop(c, indented, column, Opens(t).value, |b|);
    } else if |b| == 1 && t == CloseBrace {
      DropNone(n);
      PopKeeps(c, Statement);
      PopKeeps(PopIf(c, Statement), Brace);
      PopKeeps(PopIf(PopIf(c, Statement), Brace), Statement);
    } else if b == [] {
      DropNone(n);
      DropNone(c);
    }
  }

  // What is known of a statement on top of an open bracket.
  ghost predicate Tracked(bracket: Context, n: Context, b: seq<Kind>, inside: bool)
    requires Brackets(n) == b + Brackets(bracket)
  {
    Is(Drop(n, |b|), Statement) <==> Is(bracket, Brace) && inside
  }

  lemma StepTracks(bracket: Context, align: Option<bool>, n: Context, b: seq<Kind>, inside: bool, indented: int, x: Placed)
    requires Above(bracket, align, n, b) && !Is(bracket, Statement) && Match(b, x.token).Some?
    requires Tracked(bracket, n, b, inside)
    ensures Brackets(Step(n, indented, x)) == Match(b, x.token).value + Brackets(bracket)
    ensures Tracked(bracket, Step(n, indented, x), Match(b, x.token).value,
              if x.token == Comment then inside
              else if b == [] && (x.token == Semicolon || x.token == Colon) then !inside
              else if b == [] && x.token == Plain then true
              else if |b| == 1 && x.token == CloseBrace then false
              else inside)
  {
    var n1 := Seen(n, x);
    SeenDrop(n, x, |b|);
    DropNone(n);
    DropNone(n1);
    StepSeen(n, indented, x);
    assert Core(Drop(n1, |b|)).Inner? == bracket.Inner? && Is(Core(Drop(n1, |b|)), Brace) == Is(bracket, Brace);
    if x.token != Comment {
      NestStates(n1, LineOf(indented, x), x.place.column, x.token, b, Brackets(bracket));
    }
  }

  /** A statement lies on a block exactly while one has begun there and not ended,
      whatever text there is; none ever lies on another bracket, or outermost. */
  lemma {:induction false} StatementTracked(bracket: Context, indented: int, s: seq<Placed>)
    requires Sound(bracket) && !Is(bracket, Statement) && MatchAll([], Tokens(s)).Some?
    ensures var n := Contexts(bracket, indented, s).0; var b := MatchAll([], Tokens(s)).value;
      && Brackets(n) == b + Brackets(bracket)
      && (Is(Drop(n, |b|), Statement) <==> Is(bracket, Brace) && InStatement(s))
    decreases |s|
  {
    hide Step, Match, Drop;
    if s == [] {
      assert [] + Brackets(bracket) == Brackets(bracket);
      DropNone(bracket);
    } else {
      var init, x := s[..|s| - 1], s[|s| - 1];
      assert Tokens(s)[..|Tokens(s)| - 1] == Tokens(init);
      BracketKept(bracket, indented, init);
      StatementTracked(bracket, indented, init);
      var (n, k) := Contexts(bracket, indented, init);
      StepTracks(bracket, AlignAfter(bracket.align, init), n, MatchAll([], Tokens(init)).value, InStatement(init), k, x);
    }
  }

  // The line that a token is on, and the one that a bracket is on.
  function LineOf(indented: int, x: Placed): int {
    if x.place.startOfLine then x.place.indentation else indented
  }

  lemma BracketOpens(c: Context, indented: int, open: Placed)
    requires Opens(open.token).Some?
    ensures var c1 := Step(c, indented, open);
      c1.Inner? && c1 == Inner(LineOf(indented, open), open.place.column, Opens(open.token).value, None, c1.prev)
  {
  }

  /** What the indentation means.  Behind an open bracket and any text whose brackets
      match, lines are indented by a unit if the bracket ended its line, and otherwise
      start next to it; a line that closes it starts where the bracket's line or the
      bracket does.  That is so unless a statement of the block has begun and not ended. */
  lemma BracketIndents(c: Context, indented: int, open: Placed, s: seq<Placed>, first: Token, unit: nat)
    requires Sound(c) && Opens(open.token).Some? && MatchAll([], Tokens(s)) == Some([])
    ensures var kind := Opens(open.token).value;
      var n := Contexts(Step(c, indented, open), LineOf(indented, open), s).0;
      var closing := Closes(first) == Some(kind);
      && (Is(n, Statement) <==> kind == Brace && InStatement(s))
      && ((kind == Brace && InStatement(s))
          || Indentation(n, first, unit)
             == (if AlignAfter(None, s) == Some(true) then open.place.column + (if closing then 0 else 1)
                 else LineOf(indented, open) + if closing then 0 else unit))
  {
    var c1 := Step(c, indented, open);
    BracketOpens(c, indented, open);
    StepKeeps(c, indented, open);
    BracketKept(c1, LineOf(indented, open), s);
    StatementTracked(c1, LineOf(indented, open), s);
    var n := Contexts(c1, LineOf(indented, open), s).0;
    DropNone(n);
    hide Contexts, Step, AlignAfter, MatchAll, InStatement;
    assert Core(n) == c1.(align := AlignAfter(None, s));
  }

  lemma {:induction false} OpenAligned(s: seq<Placed>)
    ensures AlignAfter(Some(false), s) == Some(false)
    decreases |s|
  {
    if s != [] {
      OpenAligned(s[..|s| - 1]);
    }
  }

  /** Outside all brackets, whatever matched text came before, a line starts at the base
      column. */
  lemma TopIndents(basecolumn: int, indented: int, s: seq<Placed>, first: Token, unit: nat)
    requires MatchAll([], Tokens(s)) == Some([])
    ensures var n := Contexts(Top(basecolumn - unit, Some(false)), indented, s).0;
      n == Top(basecolumn - unit, Some(false)) && Indentation(n, first, unit) == basecolumn
  {
    var top := Top(basecolumn - unit, Some(false));
    BracketKept(top, indented, s);
    StatementTracked(top, indented, s);
    OpenAligned(s);
    DropNone(Contexts(top, indented, s).0);
    hide Contexts, AlignAfter, MatchAll, InStatement;
  }

  // The text does not end the statement that it starts in.
  predicate Unended(s: seq<Placed>)
    requires MatchAll([], Tokens(s)).Some?
    decreases |s|
  {
    s == [] ||
    var init, t := s[..|s| - 1], s[|s| - 1].token;
    assert Tokens(s)[..|Tokens(s)| - 1] == Tokens(init);
    var b := MatchAll([], Tokens(init)).value;
    && Unended(init)
    && (b == [] ==> t != Semicolon && t != Colon)
    && (t == CloseBrace ==> |b| > 1)
  }

  /** A statement goes on through any text that does not end it: only its alignment may
      be decided. */
  lemma {:induction false} StatementKept(c: Context, indented: int, s: seq<Placed>)
    requires Sound(c) && Is(c, Statement) && MatchAll([], Tokens(s)).Some? && Unended(s)
    ensures var n := Contexts(c, indented, s).0; var b := MatchAll([], Tokens(s)).value;
      && Sound(n) && Brackets(n) == b + Brackets(c)
      && Drop(n, |b|).(align := None) == c.(align := None)
    decreases |s|
  {
    if s == [] {
      assert [] + Brackets(c) == Brackets(c);
    } else {
      var init, x := s[..|s| - 1], s[|s| - 1];
      assert Tokens(s)[..|Tokens(s)| - 1] == Tokens(init);
      StatementKept(c, indented, init);
      var (n, k) := Contexts(c, indented, init);
      StatementStep(c, n, MatchAll([], Tokens(init)).value, k, x);
    }
  }

  lemma StatementStep(c: Context, n: Context, b: seq<Kind>, indented: int, x: Placed)
    requires Sound(n) && Is(c, Statement) && Brackets(n) == b + Brackets(c) && Match(b, x.token).Some?
    requires Drop(n, |b|).(align := None) == c.(align := None)
    requires (b == [] ==> x.token != Semicolon && x.token != Colon) && (x.token == CloseBrace ==> |b| > 1)
    ensures var r := Step(n, indented, x); var after := Match(b, x.token).value;
      && Sound(r) && Brackets(r) == after + Brackets(c)
      && Drop(r, |after|).(align := None) == c.(align := None)
  {
    var n1 := Seen(n, x);
    SeenDrop(n, x, |b|);
    StepKeeps(n, indented, x);
    StepSeen(n, indented, x);
    assert b == [] ==> Is(n, Statement);
    if x.token != Comment {
      NestDrop(n1, LineOf(indented, x), x.place.column, x.token, b, Brackets(c));
    }
  }

  /** A line that goes on with a statement of a block is indented by a unit more than the
      line where the statement starts, but for an opening brace, whatever brackets were
      opened and closed in between. */
  lemma StatementIndents(c: Context, indented: int, x: Placed, s: seq<Placed>, first: Token, unit: nat)
    requires Sound(c) && Is(c, Brace) && Opens(x.token) == None && Closes(x.token) == None && x.token != Comment
    requires MatchAll([], Tokens(s)) == Some([]) && Unended(s)
    ensures var own := LineOf(indented, x);
      var n := Contexts(Step(c, indented, x), own, s).0;
      Is(n, Statement) && Indentation(n, first, unit) == own + if first == OpenBrace then 0 else unit
  {
    var c1 := Step(c, indented, x);
    StepKeeps(c, indented, x);
    assert Is(c1, Statement) && c1.indented == LineOf(indented, x);
    StatementKept(c1, LineOf(indented, x), s);
    DropNone(Contexts(c1, LineOf(indented, x), s).0);
  }

  /** A semicolon or a colon ends it: what is left is the block, in which a first token
      was seen, and the lines that follow are the block's again.  So does the brace that
      closes a block in it. */
  lemma StatementEnds(c: Context, indented: int, x: Placed, s: seq<Placed>, end: Placed)
    requires Sound(c) && Is(c, Brace) && Opens(x.token) == None && Closes(x.token) == None && x.token != Comment
    requires (MatchAll([], Tokens(s)) == Some([]) && (end.token == Semicolon || end.token == Colon))
             || (MatchAll([], Tokens(s)) == Some([Brace]) && end.token == CloseBrace)
    requires Unended(s)
    ensures var (n, k) := Contexts(Step(c, indented, x), LineOf(indented, x), s);
      Step(n, k, end) == Seen(c, x) == c.(align := NextAlign(c.align, x))
  {
    var c1 := Step(c, indented, x);
    StepKeeps(c, indented, x);
    StepSeen(c, indented, x);
    StatementKept(c1, LineOf(indented, x), s);
    var (n, k) := Contexts(c1, LineOf(indented, x), s);
    StepSeen(n, k, end);
    SeenDrop(n, end, |MatchAll([], Tokens(s)).value|);
    hide Contexts, Step, MatchAll, Unended;
    assert c1.prev == Seen(c, x);
    EndsStatement(c1, Seen(n, end), LineOf(k, end), end.place.column, end.token);
  }

  lemma EndsStatement(c: Context, n: Context, indented: int, column: nat, t: Token)
    requires Sound(n) && Is(c, Statement)
    requires (Brackets(n) == [] + Brackets(c) && n.(align := None) == c.(align := None) && (t == Semicolon || t == Colon))
             || (Brackets(n) == [Brace] + Brackets(c) && Drop(n, 1).(align := None) == c.(align := None) && t == CloseBrace)
    ensures Nest(n, indented, column, t) == c.prev
  {
    if t == CloseBrace {
      PopKeeps(n, Statement);
      Innermost(Core(n));
      DropNone(Core(n).prev);
      assert Brackets(Core(n))[0] == Brace;
      assert Drop(n, 1) == Core(n).prev;
    } else {
      assert Is(n, Statement);
    }
  }
}
