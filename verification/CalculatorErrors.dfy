/** Which error the calculator gives to a text that does not parse: it is told by what the parser consumed, of
    which only the last byte and the open parentheses count, and by the byte it stopped at. */
module CalculatorErrors {
  import opened Wrappers
  import Text
  import opened Calculator
  import opened CalculatorGrammar
  import opened CalculatorLocality

  /** The last byte that is no space. */
  function Last(c: Bytes): Option<byte> {
    if c == [] then None
    else if IsSpace(c[|c| - 1]) then Last(c[..|c| - 1])
    else Some(c[|c| - 1])
  }

  /** How many more opening than closing parentheses there are. */
  function Depth(c: Bytes): int {
    if c == [] then 0
    else Depth(c[..|c| - 1]) + if c[|c| - 1] == LPAREN then 1 else if c[|c| - 1] == RPAREN then -1 else 0
  }

  predicate IsOperator(b: byte) {
    b == PLUS || b == MINUS || b == TIMES || b == OVER
  }

  /** After these bytes an operand must follow: nothing has been read, or an operator, or "(". */
  predicate Expects(c: Bytes) {
    match Last(c)
    case None => true
    case Some(b) => IsOperator(b) || b == LPAREN
  }

  predicate StartsOperand(b: byte) {
    IsDigit(b) || b == DOT || b == MINUS || b == LPAREN
  }

  /** How a parser that begins with an operand ends, when it has consumed `c`. */
  predicate Ends<N>(r: Step<N>, c: Bytes) {
    match r.res
    case Ok(_) => Last(c).Some? && !Expects(c) && Depth(c) == 0
    case Err(NumberExpected) => Expects(c) && !StartsOperand(Peek(r.rest))
    case Err(MissingParen) => Last(c).Some? && !Expects(c) && Depth(c) > 0 && Stops(r.rest)
    case Err(e) => e == BadLiteral || e == DivisionByZero
  }

  /** How a loop ends that follows an operand. */
  predicate EndsLoop<N>(r: Step<N>, c: Bytes) {
    match r.res
    case Ok(_) => (Last(c) == None || !Expects(c)) && Depth(c) == 0
    case Err(NumberExpected) => Last(c).Some? && Expects(c) && !StartsOperand(Peek(r.rest))
    case Err(MissingParen) => Last(c).Some? && !Expects(c) && Depth(c) > 0 && Stops(r.rest)
    case Err(e) => e == BadLiteral || e == DivisionByZero
  }

  /** Neither an operator nor ")" comes next. */
  predicate Stops(rest: Bytes) {
    !IsOperator(Peek(rest)) && Peek(rest) != RPAREN
  }

  lemma {:induction false} LastConcat(a: Bytes, b: Bytes)
    ensures Last(a + b) == if Last(b).Some? then Last(b) else Last(a)
    ensures Depth(a + b) == Depth(a) + Depth(b)
  {
    if b == [] {
      assert a + b == a;
    } else {
      assert (a + b)[..|a + b| - 1] == a + b[..|b| - 1];
      LastConcat(a, b[..|b| - 1]);
    }
  }

  lemma {:induction false} SpacesAreNothing(gap: Bytes)
    requires Spaces(gap)
    ensures Last(gap) == None && Depth(gap) == 0
  {
    if gap != [] {
      SpacesAreNothing(gap[..|gap| - 1]);
    }
  }

  lemma OneByte(b: byte)
    requires !IsSpace(b)
    ensures Last([b]) == Some(b) && Depth([b]) == if b == LPAREN then 1 else if b == RPAREN then -1 else 0
  {
    assert [b][..0] == [];
    assert Depth([]) == 0;
  }

  lemma {:induction false} NumberIsOperand(digits: Bytes)
    requires forall i :: 0 <= i < |digits| ==> IsDigit(digits[i]) || digits[i] == DOT
    ensures Depth(digits) == 0 && (digits != [] ==> Last(digits) == Some(digits[|digits| - 1]) && !Expects(digits))
  {
    if digits != [] {
      NumberIsOperand(digits[..|digits| - 1]);
    }
  }

  lemma {:induction false} ScannedBytes(s: Bytes, dotSeen: bool)
    ensures var n := ScanLength(s, dotSeen);
      forall i :: 0 <= i < n ==> IsDigit(s[i]) || s[i] == DOT
  {
    if s != [] && ((s[0] == DOT && !dotSeen) || IsDigit(s[0])) {
      var seen := dotSeen || s[0] == DOT;
      ScannedBytes(s[1..], seen);
      assert forall i :: 0 < i < |s| ==> s[i] == s[1..][i - 1];
    }
  }

  lemma NumberEnds<N>(alg: Algebra<N>, u: Bytes) returns (c: Bytes)
    requires SkipSpace(u) == u && Peek(u) != MINUS && Peek(u) != LPAREN
    ensures Consumed(u, Number(alg, u), c) && Ends(Number(alg, u), c)
  {
    var n := ScanLength(u, false);
    c := u[..n];
    ScannedBytes(u, false);
    NumberIsOperand(c);
    assert u == c + u[n..];
  }

  /** A parenthesized expression: what follows the expression, and what is consumed of it. */
  lemma ClosedEnds<N>(body: Step<N>, c: Bytes) returns (d: Bytes)
    requires Ends(body, c) && (body.res.Ok? ==> !IsOperator(Peek(SkipSpace(body.rest))))
    ensures body.rest == d + Closed(body).rest
    ensures Ends(Closed(body), [LPAREN] + (c + d))
  {
    OneByte(LPAREN);
    if body.res.Err? {
      d := [];
      assert c + d == c;
      LastConcat([LPAREN], c);
    } else {
      var gap, close := Gap(body.rest), SkipSpace(body.rest);
      SpacesAreNothing(gap);
      LastConcat(c, gap);
      if Peek(close) != RPAREN {
        d := gap;
      } else {
        SplitFirst(close);
        OneByte(RPAREN);
        d := gap + [RPAREN];
        Assoc(gap, [RPAREN], close[1..]);
        LastConcat(gap, [RPAREN]);
        LastConcat(c, d);
      }
      LastConcat([LPAREN], c + d);
    }
  }

  lemma After<N>(r: Step<N>, gap: Bytes, b: byte, c: Bytes)
    requires Spaces(gap) && (IsOperator(b)) && Ends(r, c)
    ensures Ends(r, gap + ([b] + c))
    ensures EndsLoop(r, gap + ([b] + c))
  {
    SpacesAreNothing(gap);
    OneByte(b);
    LastConcat([b], c);
    LastConcat(gap, [b] + c);
  }

  lemma Continues<N>(r: Step<N>, c: Bytes, d: Bytes)
    requires Last(c).Some? && !Expects(c) && Depth(c) == 0 && EndsLoop(r, d)
    ensures Ends(r, c + d) && EndsLoop(r, c + d)
  {
    LastConcat(c, d);
  }

  /** The calculator's spaces are the Unicode spaces among the Latin-1 characters. */
  lemma LatinSpaces(b: byte)
    ensures IsSpace(b) <==> Text.IsSpace(b as int as char)
  {}

  // ---------- where the loops stop ----------

  lemma {:induction false} TermLoopEndsAt<N>(alg: Algebra<N>, l: N, s: Bytes)
    requires TermLoop(alg, l, s).res.Ok?
    ensures var rest := TermLoop(alg, l, s).rest;
      SkipSpace(rest) == rest && Peek(rest) != TIMES && Peek(rest) != OVER
    decreases |s|
  {
    var u := SkipSpace(s);
    assert SkipSpace(u) == u;
    if Peek(u) == TIMES || Peek(u) == OVER {
      var right := Factor(alg, u[1..]);
      var op := if Peek(u) == TIMES then Mul else Div;
      TermLoopEndsAt(alg, Combine(alg, op, l, right.res.value), right.rest);
    }
  }

  lemma {:induction false} ExpressionLoopEndsAt<N>(alg: Algebra<N>, l: N, s: Bytes)
    requires ExpressionLoop(alg, l, s).res.Ok? && Peek(SkipSpace(s)) != TIMES && Peek(SkipSpace(s)) != OVER
    ensures !IsOperator(Peek(SkipSpace(ExpressionLoop(alg, l, s).rest)))
    decreases |s|
  {
    var u := SkipSpace(s);
    assert SkipSpace(u) == u;
    if Peek(u) == PLUS || Peek(u) == MINUS {
      var right := Term(alg, u[1..]);
      var left := Factor(alg, u[1..]);
      TermLoopEndsAt(alg, left.res.value, left.rest);
      var op := if Peek(u) == PLUS then Add else Sub;
      ExpressionLoopEndsAt(alg, Combine(alg, op, l, right.res.value), right.rest);
    }
  }

  lemma ExpressionEndsAt<N>(alg: Algebra<N>, s: Bytes)
    ensures Expression(alg, s).res.Ok? ==> !IsOperator(Peek(SkipSpace(Expression(alg, s).rest)))
  {
    if Expression(alg, s).res.Ok? {
      assert Term(alg, s).res.Ok?;
      var left := Factor(alg, s);
      TermLoopEndsAt(alg, left.res.value, left.rest);
      ExpressionLoopEndsAt(alg, Term(alg, s).res.value, Term(alg, s).rest);
    }
  }

  // ---------- every parser function ends so ----------

  lemma {:induction false} FactorEnds<N>(alg: Algebra<N>, s: Bytes) returns (c: Bytes)
    ensures Consumed(s, Factor(alg, s), c) && Ends(Factor(alg, s), c)
    decreases |s|, 0
  {
    var gap, u := Gap(s), SkipSpace(s);
    FactorCases(alg, s);
    var d: Bytes;
    if Peek(u) == MINUS {
      SplitFirst(u);
      var e := FactorEnds(alg, u[1..]);
      d := [MINUS] + e;
      Assoc([MINUS], e, Factor(alg, s).rest);
      After(Negated(alg, Factor(alg, u[1..])), [], MINUS, e);
      assert [] + d == d;
    } else if Peek(u) == LPAREN {
      SplitFirst(u);
      var body := Expression(alg, u[1..]);
      var e := ExpressionEnds(alg, u[1..]);
      ExpressionEndsAt(alg, u[1..]);
      var close := ClosedEnds(body, e);
      d := [LPAREN] + (e + close);
      Assoc(e, close, Factor(alg, s).rest);
      Assoc([LPAREN], e + close, Factor(alg, s).rest);
    } else {
      d := NumberEnds(alg, u);
    }
    c := gap + d;
    Assoc(gap, d, Factor(alg, s).rest);
    SpacesAreNothing(gap);
    LastConcat(gap, d);
  }

  lemma {:induction false} TermEnds<N>(alg: Algebra<N>, s: Bytes) returns (c: Bytes)
    ensures Consumed(s, Term(alg, s), c) && Ends(Term(alg, s), c)
    decreases |s|, 2
  {
    var left := Factor(alg, s);
    c := FactorEnds(alg, s);
    if left.res.Ok? {
      var d := TermLoopEnds(alg, left.res.value, left.rest);
      Continues(Term(alg, s), c, d);
      Assoc(c, d, Term(alg, s).rest);
      c := c + d;
    }
  }

  lemma {:induction false} TermLoopEnds<N>(alg: Algebra<N>, l: N, s: Bytes) returns (c: Bytes)
    ensures Consumed(s, TermLoop(alg, l, s), c) && EndsLoop(TermLoop(alg, l, s), c)
    decreases |s|, 1
  {
    var gap, u := Gap(s), SkipSpace(s);
    c := gap;
    SpacesAreNothing(gap);
    if Peek(u) == TIMES || Peek(u) == OVER {
      var op := if Peek(u) == TIMES then Mul else Div;
      SplitFirst(u);
      var right := Factor(alg, u[1..]);
      var d := FactorEnds(alg, u[1..]);
      if right.res.Ok? && Applied(alg, op, l, right.res.value).Ok? {
        var e := TermLoopEnds(alg, Combine(alg, op, l, right.res.value), right.rest);
        Continues(TermLoop(alg, l, s), d, e);
        Assoc(d, e, TermLoop(alg, l, s).rest);
        d := d + e;
      }
      After(TermLoop(alg, l, s), gap, Peek(u), d);
      Operated(gap, Peek(u), d, TermLoop(alg, l, s).rest);
      c := gap + ([Peek(u)] + d);
    }
  }

  lemma Operated(gap: Bytes, b: byte, d: Bytes, rest: Bytes)
    ensures gap + ([b] + (d + rest)) == gap + ([b] + d) + rest
  {}

  lemma {:induction false} ExpressionEnds<N>(alg: Algebra<N>, s: Bytes) returns (c: Bytes)
    ensures Consumed(s, Expression(alg, s), c) && Ends(Expression(alg, s), c)
    decreases |s|, 4
  {
    var left := Term(alg, s);
    c := TermEnds(alg, s);
    if left.res.Ok? {
      var d := ExpressionLoopEnds(alg, left.res.value, left.rest);
      Continues(Expression(alg, s), c, d);
      Assoc(c, d, Expression(alg, s).rest);
      c := c + d;
    }
  }

  lemma {:induction false} ExpressionLoopEnds<N>(alg: Algebra<N>, l: N, s: Bytes) returns (c: Bytes)
    ensures Consumed(s, ExpressionLoop(alg, l, s), c) && EndsLoop(ExpressionLoop(alg, l, s), c)
    decreases |s|, 3
  {
    var gap, u := Gap(s), SkipSpace(s);
    c := gap;
    SpacesAreNothing(gap);
    if Peek(u) == PLUS || Peek(u) == MINUS {
      var op := if Peek(u) == PLUS then Add else Sub;
      SplitFirst(u);
      var right := Term(alg, u[1..]);
      var d := TermEnds(alg, u[1..]);
      if right.res.Ok? {
        var e := ExpressionLoopEnds(alg, Combine(alg, op, l, right.res.value), right.rest);
        Continues(ExpressionLoop(alg, l, s), d, e);
        Assoc(d, e, ExpressionLoop(alg, l, s).rest);
        d := d + e;
      }
      After(ExpressionLoop(alg, l, s), gap, Peek(u), d);
      Operated(gap, Peek(u), d, ExpressionLoop(alg, l, s).rest);
      c := gap + ([Peek(u)] + d);
    }
  }

  /** The three errors of a text that does not parse exclude one another by what was consumed before it:
      a number is expected where an operand must follow and none begins; a parenthesis is missing where an
      operand has ended inside an open one; and the expression is invalid where an operand has ended outside
      all parentheses, and something is left. */
  lemma SyntaxErrors<N>(alg: Algebra<N>, s: Bytes) returns (c: Bytes, rest: Bytes)
    ensures s == c + rest
    ensures Eval(alg, s) == Err(NumberExpected) ==> Expects(c) && !StartsOperand(Peek(rest))
    ensures Eval(alg, s) == Err(MissingParen) ==> !Expects(c) && Depth(c) > 0 && Stops(rest)
    ensures Eval(alg, s) == Err(InvalidExpression) ==>
      !Expects(c) && Depth(c) == 0 && SkipSpace(rest) != [] && !IsOperator(Peek(SkipSpace(rest)))
  {
    c := ExpressionEnds(alg, s);
    rest := Expression(alg, s).rest;
    ExpressionEndsAt(alg, s);
  }
}
