/** demo.js: the BASIC interpreter's evaluator of numeric expressions, and its store
    of program lines. */
module Basic {
  import opened Bytes

  datatype Token = Number(n: nat) | Plus | Minus | Times | Open | Close | Other(text: string)

  // What an evaluation gives: a value, unless there was an error, and the tokens
  // that are left.
  datatype Result = Result(value: Option<int>, rest: seq<Token>)

  // The next token, if there is one.
  function Peek(t: seq<Token>): Option<Token> {
    if t == [] then None else Some(t[0])
  }

  /** Demo.factor: a number, a parenthesis, or a minus sign, which takes all of the
      expression that follows. */
  function Factor(t: seq<Token>): (r: Result)
    ensures |r.rest| <= |t| && (r.value.Some? ==> |r.rest| < |t|)
    decreases |t|, 0
  {
    if t == [] then Result(None, t)
    else match t[0]
      case Minus =>
        var r := Expr(t[1..]);
        if r.value == None then r else Result(Some(0 - r.value.value), r.rest)
      case Number(n) => Result(Some(n), t[1..])
      case Open =>
        var r := Expr(t[1..]);
        var rest := if r.rest == [] then [] else r.rest[1..];
        if Peek(r.rest) == Some(Close) then Result(r.value, rest) else Result(None, rest)
      case _ => Result(None, t[1..])
  }

  function Term(t: seq<Token>): (r: Result)
    ensures |r.rest| <= |t| && (r.value.Some? ==> |r.rest| < |t|)
    decreases |t|, 2
  {
    var r := Factor(t);
    if r.value == None then r else TermTail(r.value.value, r.rest)
  }

  // More factors of a product.
  function TermTail(v: int, t: seq<Token>): (r: Result)
    ensures |r.rest| <= |t|
    decreases |t|, 1
  {
    if Peek(t) != Some(Times) then Result(Some(v), t)
    else
      var r := Factor(t[1..]);
      if r.value == None then r else TermTail(v * r.value.value, r.rest)
  }

  function Expr(t: seq<Token>): (r: Result)
    ensures |r.rest| <= |t| && (r.value.Some? ==> |r.rest| < |t|)
    decreases |t|, 4
  {
    var r := Term(t);
    if r.value == None then r else ExprTail(r.value.value, r.rest)
  }

  // More terms of a sum.
  function ExprTail(v: int, t: seq<Token>): (r: Result)
    ensures |r.rest| <= |t|
    decreases |t|, 3
  {
    if Peek(t) != Some(Plus) && Peek(t) != Some(Minus) then Result(Some(v), t)
    else
      var r := Term(t[1..]);
      if r.value == None then r
      else ExprTail(if t[0] == Plus then v + r.value.value else v - r.value.value, r.rest)
  }

  class Demo {
    var tokens: seq<Token>

    constructor (t: seq<Token>)
      ensures tokens == t
    {
      tokens := t;
    }

    method PeekToken() returns (token: Option<Token>)
      ensures token == Peek(tokens)
    {
      return if tokens == [] then None else Some(tokens[0]);
    }

    method Consume()
      modifies this
      ensures tokens == if old(tokens) == [] then [] else old(tokens)[1..]
    {
      if tokens != [] {
        tokens := tokens[1..];
      }
    }

    method NextToken() returns (token: Option<Token>)
      modifies this
      ensures token == Peek(old(tokens)) && tokens == if old(tokens) == [] then [] else old(tokens)[1..]
    {
      token := PeekToken();
      Consume();
    }

    method EvalFactor() returns (value: Option<int>)
      modifies this
      ensures Result(value, tokens) == Factor(old(tokens))
      decreases |tokens|, 0
    {
      var token := NextToken();
      if token == Some(Minus) {
        value := EvalExpr();
        if value != None {
          value := Some(0 - value.value);
        }
        return;
      }
      if token == None {
        return None;
      }
      if token.value == Open {
        value := EvalExpr();
        token := NextToken();
        if token != Some(Close) {
          return None;
        }
      } else if token.value.Number? {
        return Some(token.value.n);
      } else {
        return None;
      }
    }

    method EvalTerm() returns (value: Option<int>)
      modifies this
      ensures Result(value, tokens) == Term(old(tokens))
      decreases |tokens|, 1
    {
      value := EvalFactor();
      while value != None
        invariant |tokens| <= |old(tokens)|
        invariant if value == None then Result(value, tokens) == Term(old(tokens))
                  else |tokens| < |old(tokens)| && TermTail(value.value, tokens) == Term(old(tokens))
        decreases value != None, |tokens|
      {
        var token := PeekToken();
        if token != Some(Times) {
          break;
        }
        Consume();
        var v := EvalFactor();
        if v == None {
          return None;
        }
        value := Some(value.value * v.value);
      }
    }

    method EvalExpr() returns (value: Option<int>)
      modifies this
      ensures Result(value, tokens) == Expr(old(tokens))
      decreases |tokens|, 2
    {
      value := EvalTerm();
      while value != None
        invariant |tokens| <= |old(tokens)|
        invariant if value == None then Result(value, tokens) == Expr(old(tokens))
                  else |tokens| < |old(tokens)| && ExprTail(value.value, tokens) == Expr(old(tokens))
        decreases value != None, |tokens|
      {
        var token := PeekToken();
        if token != Some(Plus) && token != Some(Minus) {
          break;
        }
        Consume();
        var v := EvalTerm();
        if v == None {
          return None;
        }
        value := Some(if token == Some(Minus) then value.value - v.value else value.value + v.value);
      }
    }
  }

  // ---- Expressions ----

  datatype Tree = Num(n: nat) | Add(left: Tree, right: Tree) | Sub(left: Tree, right: Tree)
                | Mul(left: Tree, right: Tree) | Neg(arg: Tree)

  function Value(e: Tree): int {
    match e
    case Num(n) => n
    case Add(l, r) => Value(l) + Value(r)
    case Sub(l, r) => Value(l) - Value(r)
    case Mul(l, r) => Value(l) * Value(r)
    case Neg(a) => 0 - Value(a)
  }

  // The expression as a whole, as a term of a sum, and as a factor of a product,
  // with parentheses where they are needed.
  function PrintExpr(e: Tree): seq<Token>
    decreases e, 2
  {
    match e
    case Add(l, r) => PrintExpr(l) + [Plus] + PrintTerm(r)
    case Sub(l, r) => PrintExpr(l) + [Minus] + PrintTerm(r)
    case _ => PrintTerm(e)
  }

  function PrintTerm(e: Tree): seq<Token>
    decreases e, 1
  {
    match e
    case Mul(l, r) => PrintTerm(l) + [Times] + PrintFactor(r)
    case _ => PrintFactor(e)
  }

  function PrintFactor(e: Tree): seq<Token>
    decreases e, 0
  {
    match e
    case Num(n) => [Number(n)]
    case Neg(a) => [Open, Minus] + PrintExpr(a) + [Close]
    case Add(l, r) => [Open] + PrintExpr(l) + [Plus] + PrintTerm(r) + [Close]
    case Sub(l, r) => [Open] + PrintExpr(l) + [Minus] + PrintTerm(r) + [Close]
    case Mul(l, r) => [Open] + PrintTerm(l) + [Times] + PrintFactor(r) + [Close]
  }

  lemma FactorParenthesis(t: seq<Token>, v: int, rest: seq<Token>)
    requires Expr(t) == Result(Some(v), [Close] + rest)
    ensures Factor([Open] + t) == Result(Some(v), rest)
  {
    assert ([Open] + t)[1..] == t && ([Close] + rest)[1..] == rest;
  }

  lemma FactorMinus(t: seq<Token>, v: int, rest: seq<Token>)
    requires Expr(t) == Result(Some(v), rest)
    ensures Factor([Minus] + t) == Result(Some(0 - v), rest)
  {
    assert ([Minus] + t)[1..] == t;
  }

  lemma TailTimes(v: int, t: seq<Token>, w: int, rest: seq<Token>)
    requires Factor(t) == Result(Some(w), rest)
    ensures TermTail(v, [Times] + t) == TermTail(v * w, rest)
  {
    assert ([Times] + t)[1..] == t;
  }

  lemma TailPlus(v: int, minus: bool, t: seq<Token>, w: int, rest: seq<Token>)
    requires Term(t) == Result(Some(w), rest)
    ensures ExprTail(v, [if minus then Minus else Plus] + t) == ExprTail(if minus then v - w else v + w, rest)
  {
    assert ([if minus then Minus else Plus] + t)[1..] == t;
  }

  lemma TailsEnd(v: int, rest: seq<Token>)
    ensures Peek(rest) != Some(Times) ==> TermTail(v, rest) == Result(Some(v), rest)
    ensures Peek(rest) != Some(Plus) && Peek(rest) != Some(Minus) ==> ExprTail(v, rest) == Result(Some(v), rest)
  {
  }

  lemma ExprOfTerm(t: seq<Token>, v: int, rest: seq<Token>)
    requires Term(t) == TermTail(v, rest) && Peek(rest) != Some(Times)
    ensures Expr(t) == ExprTail(v, rest)
  {
    TailsEnd(v, rest);
  }

  lemma TermOfFactor(t: seq<Token>, v: int, rest: seq<Token>)
    requires Factor(t) == Result(Some(v), rest)
    ensures Term(t) == TermTail(v, rest)
  {
  }

  // A product is read up to its end, and goes on from there.
  lemma {:induction false} MulStarts(e: Tree, rest: seq<Token>)
    requires e.Mul?
    ensures Term(PrintTerm(e) + rest) == TermTail(Value(e), rest)
    decreases e, 1
  {
    hide Expr, Term, Factor, TermTail, ExprTail;
    var more := PrintFactor(e.right) + rest;
    assert PrintTerm(e) + rest == PrintTerm(e.left) + ([Times] + more);
    TermStarts(e.left, [Times] + more);
    FactorReads(e.right, rest);
    TailTimes(Value(e.left), more, Value(e.right), rest);
  }

  lemma {:induction false} TermStarts(e: Tree, rest: seq<Token>)
    ensures Term(PrintTerm(e) + rest) == TermTail(Value(e), rest)
    decreases e, 4
  {
    if e.Mul? {
      MulStarts(e, rest);
    } else {
      FactorReads(e, rest);
      TermOfFactor(PrintFactor(e) + rest, Value(e), rest);
    }
  }

  // So is a sum.
  lemma {:induction false} SumStarts(e: Tree, rest: seq<Token>)
    requires (e.Add? || e.Sub?) && Peek(rest) != Some(Times)
    ensures Expr(PrintExpr(e) + rest) == ExprTail(Value(e), rest)
    decreases e, 1
  {
    hide Expr, Term, Factor, TermTail, ExprTail;
    var op, more := if e.Sub? then Minus else Plus, PrintTerm(e.right) + rest;
    assert PrintExpr(e) + rest == PrintExpr(e.left) + ([op] + more);
    ExprStarts(e.left, [op] + more);
    TermStarts(e.right, rest);
    TailsEnd(Value(e.right), rest);
    TailPlus(Value(e.left), e.Sub?, more, Value(e.right), rest);
  }

  lemma {:induction false} ExprStarts(e: Tree, rest: seq<Token>)
    requires Peek(rest) != Some(Times)
    ensures Expr(PrintExpr(e) + rest) == ExprTail(Value(e), rest)
    decreases e, 5
  {
    if e.Add? || e.Sub? {
      SumStarts(e, rest);
    } else {
      TermStarts(e, rest);
      ExprOfTerm(PrintTerm(e) + rest, Value(e), rest);
    }
  }

  // What is in parentheses.
  lemma {:induction false} InnerReads(e: Tree, rest: seq<Token>)
    requires e.Add? || e.Sub? || e.Mul?
    ensures Expr(PrintExpr(e) + ([Close] + rest)) == Result(Some(Value(e)), [Close] + rest)
    decreases e, 2
  {
    if e.Mul? {
      MulStarts(e, [Close] + rest);
      ExprOfTerm(PrintTerm(e) + ([Close] + rest), Value(e), [Close] + rest);
    } else {
      SumStarts(e, [Close] + rest);
    }
    TailsEnd(Value(e), [Close] + rest);
  }

  lemma {:induction false} NegReads(e: Tree, rest: seq<Token>)
    requires e.Neg?
    ensures Expr([Minus] + (PrintExpr(e.arg) + ([Close] + rest))) == Result(Some(Value(e)), [Close] + rest)
    decreases e, 2
  {
    hide Factor;
    var t := PrintExpr(e.arg) + ([Close] + rest);
    ExprStarts(e.arg, [Close] + rest);
    TailsEnd(Value(e.arg), [Close] + rest);
    FactorMinus(t, Value(e.arg), [Close] + rest);
    TermOfFactor([Minus] + t, Value(e), [Close] + rest);
    ExprOfTerm([Minus] + t, Value(e), [Close] + rest);
    TailsEnd(Value(e), [Close] + rest);
  }

  lemma NumberReads(n: nat, rest: seq<Token>)
    ensures Factor([Number(n)] + rest) == Result(Some(n), rest)
  {
    assert ([Number(n)] + rest)[1..] == rest;
  }

  lemma {:induction false} FactorReads(e: Tree, rest: seq<Token>)
    ensures Factor(PrintFactor(e) + rest) == Result(Some(Value(e)), rest)
    decreases e, 3
  {
    assert e.Num? ==> PrintFactor(e) == [Number(e.n)];
    hide Factor, Expr, PrintFactor, PrintExpr;
    match e
    case Num(n) =>
      NumberReads(n, rest);
    case Neg(a) =>
      NegReads(e, rest);
      PrintNegated(a, rest);
      FactorParenthesis([Minus] + (PrintExpr(a) + ([Close] + rest)), Value(e), rest);
    case _ =>
      InnerReads(e, rest);
      PrintInside(e, rest);
      FactorParenthesis(PrintExpr(e) + ([Close] + rest), Value(e), rest);
  }

  lemma PrintNegated(a: Tree, rest: seq<Token>)
    ensures PrintFactor(Neg(a)) + rest == [Open] + ([Minus] + (PrintExpr(a) + ([Close] + rest)))
  {
  }

  lemma PrintInside(e: Tree, rest: seq<Token>)
    requires e.Add? || e.Sub? || e.Mul?
    ensures PrintFactor(e) + rest == [Open] + (PrintExpr(e) + ([Close] + rest))
  {
    assert PrintFactor(e) == [Open] + PrintExpr(e) + [Close];
  }

  /** Tokens that do not go on with an expression: the other operators, which are not
      modelled, do. */
  predicate Ends(rest: seq<Token>) {
    && Peek(rest) != Some(Times) && Peek(rest) != Some(Plus) && Peek(rest) != Some(Minus)
    && Peek(rest) != Some(Other("/")) && Peek(rest) != Some(Other("\\")) && Peek(rest) != Some(Other("^"))
  }

  /** Evaluating the tokens of an expression gives its value, and takes exactly
      those tokens. */
  lemma ExprReads(e: Tree, rest: seq<Token>)
    requires Ends(rest)
    ensures Expr(PrintExpr(e) + rest) == Result(Some(Value(e)), rest)
  {
    ExprStarts(e, rest);
    TailsEnd(Value(e), rest);
  }

  // The first term of a sum, and the sum with that term negated: what a minus sign in
  // front is meant to say.
  function First(e: Tree): Tree {
    if e.Add? || e.Sub? then First(e.left) else e
  }

  function Intended(e: Tree): Tree {
    match e
    case Add(l, r) => Add(Intended(l), r)
    case Sub(l, r) => Sub(Intended(l), r)
    case _ => Neg(e)
  }

  lemma {:induction false} IntendedValue(e: Tree)
    ensures Value(Intended(e)) == Value(e) - 2 * Value(First(e))
  {
    if e.Add? || e.Sub? {
      IntendedValue(e.left);
    }
  }

  /** A minus sign takes in all of the sum that follows it, however long.  Without
      parentheses a negated term is read as intended if and only if what is added to
      it, or subtracted, comes to nothing. */
  lemma MinusTakesAll(e: Tree, rest: seq<Token>)
    requires Ends(rest)
    ensures Expr([Minus] + (PrintExpr(e) + rest)) == Result(Some(0 - Value(e)), rest)
    ensures 0 - Value(e) == Value(Intended(e)) <==> Value(e) == Value(First(e))
  {
    hide Factor;
    var t := PrintExpr(e) + rest;
    IntendedValue(e);
    ExprReads(e, rest);
    FactorMinus(t, Value(e), rest);
    TermOfFactor([Minus] + t, 0 - Value(e), rest);
    ExprOfTerm([Minus] + t, 0 - Value(e), rest);
    TailsEnd(0 - Value(e), rest);
  }

  /** An expression whose parenthesis is not closed is an error. */
  lemma MissingParenthesis(e: Tree, rest: seq<Token>)
    requires Ends(rest) && Peek(rest) != Some(Close)
    ensures Expr([Open] + (PrintExpr(e) + rest)).value == None
  {
    hide PrintExpr;
    var t := PrintExpr(e) + rest;
    ExprReads(e, rest);
    assert ([Open] + t)[1..] == t;
    assert Factor([Open] + t).value == None;
  }
}
