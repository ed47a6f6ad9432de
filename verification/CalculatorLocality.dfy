/** The cursor of the calculator's parser: what a parser method returns is decided by the bytes it consumes
    and the byte it peeks at after them, and it consumes a prefix of its input. */
module CalculatorLocality {
  import opened Wrappers
  import opened Calculator
  import opened CalculatorGrammar

  /** What the parser sees of `s` at its first byte: the end of the input and a NUL byte look alike. */
  predicate SameNext(s: Bytes, t: Bytes) {
    Peek(s) == Peek(t)
  }

  /** `c` is what a parser consumed of `s` to return `r`. */
  predicate Consumed<N>(s: Bytes, r: Step<N>, c: Bytes) {
    s == c + r.rest
  }

  /** The same outcome, with another rest. */
  function At<N>(r: Step<N>, rest: Bytes): Step<N> {
    Step(r.res, rest)
  }

  lemma NextAfter(c: Bytes, s: Bytes, t: Bytes)
    requires SameNext(s, t)
    ensures SameNext(c + s, c + t)
  {
    if c == [] {
      assert c + s == s && c + t == t;
    }
  }

  lemma Assoc(a: Bytes, b: Bytes, c: Bytes)
    ensures (a + b) + c == a + (b + c)
  {}

  lemma SkipsNothing(s: Bytes, t: Bytes)
    requires SameNext(SkipSpace(s), t)
    ensures SkipSpace(t) == t
  {}

  lemma {:induction false} ScanIsLocal(s: Bytes, dotSeen: bool, next: Bytes)
    requires SameNext(s[ScanLength(s, dotSeen)..], next)
    ensures ScanLength(s[..ScanLength(s, dotSeen)] + next, dotSeen) == ScanLength(s, dotSeen)
  {
    var n := ScanLength(s, dotSeen);
    if n == 0 {
      assert s[..n] + next == next && s[n..] == s;
    } else {
      var seen := dotSeen || s[0] == DOT;
      assert s[1..][n - 1..] == s[n..];
      ScanIsLocal(s[1..], seen, next);
      assert (s[..n] + next)[1..] == s[1..][..n - 1] + next;
      assert (s[..n] + next)[0] == s[0];
    }
  }

  lemma NumberIsLocal<N>(alg: Algebra<N>, u: Bytes, next: Bytes) returns (c: Bytes)
    requires SkipSpace(u) == u && Peek(u) != MINUS && Peek(u) != LPAREN
    requires SameNext(Number(alg, u).rest, next)
    ensures Consumed(u, Number(alg, u), c) && Factor(alg, c + next) == At(Number(alg, u), next)
  {
    var n := ScanLength(u, false);
    c := u[..n];
    assert u == c + u[n..];
    ScanIsLocal(u, false, next);
    var t := c + next;
    assert t[..n] == c && t[n..] == next;
    assert n > 0 ==> t[0] == u[0];
    if n == 0 {
      assert c + next == next && u[n..] == u;
    }
    assert SkipSpace(t) == t;
  }

  lemma ClosedIsLocal<N>(body: Step<N>, next: Bytes) returns (c: Bytes)
    requires SameNext(Closed(body).rest, next)
    ensures body.rest == c + Closed(body).rest
    ensures SameNext(body.rest, c + next) && Closed(At(body, c + next)) == At(Closed(body), next)
  {
    if body.res.Err? {
      c := [];
      assert c + next == next && c + body.rest == body.rest;
    } else {
      var gap, close := Gap(body.rest), SkipSpace(body.rest);
      if Peek(close) != RPAREN {
        c := gap;
        SkipGap(gap, next);
        SkipsNothing(body.rest, next);
        NextAfter(gap, close, next);
      } else {
        SplitFirst(close);
        c := gap + [RPAREN];
        Assoc(gap, [RPAREN], close[1..]);
        Assoc(gap, [RPAREN], next);
        SkipGap(gap, [RPAREN] + next);
        NextAfter(gap, close, [RPAREN] + next);
        assert ([RPAREN] + next)[1..] == next;
      }
    }
  }

  lemma {:induction false} FactorIsLocal<N>(alg: Algebra<N>, s: Bytes, next: Bytes) returns (c: Bytes)
    requires SameNext(Factor(alg, s).rest, next)
    ensures Consumed(s, Factor(alg, s), c) && Factor(alg, c + next) == At(Factor(alg, s), next)
    decreases |s|, 0
  {
    var gap, u := Gap(s), SkipSpace(s);
    FactorCases(alg, s);
    var d: Bytes;
    if Peek(u) == MINUS {
      SplitFirst(u);
      var e := FactorIsLocal(alg, u[1..], next);
      d := [MINUS] + e;
      Assoc([MINUS], e, Factor(alg, s).rest);
      Assoc([MINUS], e, next);
      FactorMinus(alg, e + next);
    } else if Peek(u) == LPAREN {
      SplitFirst(u);
      var body := Expression(alg, u[1..]);
      var close := ClosedIsLocal(body, next);
      var e := ExpressionIsLocal(alg, u[1..], close + next);
      d := [LPAREN] + (e + close);
      Assoc(e, close, Factor(alg, s).rest);
      Assoc([LPAREN], e + close, Factor(alg, s).rest);
      Assoc(e, close, next);
      Assoc([LPAREN], e + close, next);
      FactorParen(alg, e + (close + next));
    } else {
      d := NumberIsLocal(alg, u, next);
    }
    c := gap + d;
    Assoc(gap, d, Factor(alg, s).rest);
    Assoc(gap, d, next);
    FactorSkips(alg, gap, d + next);
  }

  lemma {:induction false} TermIsLocal<N>(alg: Algebra<N>, s: Bytes, next: Bytes) returns (c: Bytes)
    requires SameNext(Term(alg, s).rest, next)
    ensures Consumed(s, Term(alg, s), c) && Term(alg, c + next) == At(Term(alg, s), next)
    decreases |s|, 2
  {
    var left := Factor(alg, s);
    if left.res.Err? {
      c := FactorIsLocal(alg, s, next);
    } else {
      var d := TermLoopIsLocal(alg, left.res.value, left.rest, next);
      NextAfter(d, Term(alg, s).rest, next);
      var e := FactorIsLocal(alg, s, d + next);
      c := e + d;
      Assoc(e, d, Term(alg, s).rest);
      Assoc(e, d, next);
    }
  }

  lemma {:induction false} TermLoopIsLocal<N>(alg: Algebra<N>, l: N, s: Bytes, next: Bytes) returns (c: Bytes)
    requires SameNext(TermLoop(alg, l, s).rest, next)
    ensures Consumed(s, TermLoop(alg, l, s), c) && TermLoop(alg, l, c + next) == At(TermLoop(alg, l, s), next)
    decreases |s|, 1
  {
    var gap, u := Gap(s), SkipSpace(s);
    if Peek(u) == TIMES || Peek(u) == OVER {
      var op := if Peek(u) == TIMES then Mul else Div;
      SplitFirst(u);
      TermLoopOperator(alg, l, gap, op, u[1..]);
      var right := Factor(alg, u[1..]);
      var d: Bytes := [];
      if right.res.Ok? && Applied(alg, op, l, right.res.value).Ok? {
        d := TermLoopIsLocal(alg, Combine(alg, op, l, right.res.value), right.rest, next);
      } else {
        assert d + right.rest == right.rest && d + next == next;
      }
      NextAfter(d, TermLoop(alg, l, s).rest, next);
      var e := FactorIsLocal(alg, u[1..], d + next);
      TermLoopOperator(alg, l, gap, op, e + (d + next));
      c := gap + ([Symbol(op)] + (e + d));
      Regroup3(gap, [Symbol(op)], e, d, next);
      Regroup3(gap, [Symbol(op)], e, d, TermLoop(alg, l, s).rest);
    } else {
      c := gap;
      TermLoopStops(alg, l, s);
      SkipGap(gap, next);
      SkipsNothing(s, next);
      TermLoopStops(alg, l, gap + next);
    }
  }

  lemma Regroup3(a: Bytes, b: Bytes, c: Bytes, d: Bytes, e: Bytes)
    ensures (a + (b + (c + d))) + e == a + (b + (c + (d + e)))
  {}

  lemma {:induction false} ExpressionIsLocal<N>(alg: Algebra<N>, s: Bytes, next: Bytes) returns (c: Bytes)
    requires SameNext(Expression(alg, s).rest, next)
    ensures Consumed(s, Expression(alg, s), c) && Expression(alg, c + next) == At(Expression(alg, s), next)
    decreases |s|, 4
  {
    var left := Term(alg, s);
    if left.res.Err? {
      c := TermIsLocal(alg, s, next);
    } else {
      var d := ExpressionLoopIsLocal(alg, left.res.value, left.rest, next);
      NextAfter(d, Expression(alg, s).rest, next);
      var e := TermIsLocal(alg, s, d + next);
      c := e + d;
      Assoc(e, d, Expression(alg, s).rest);
      Assoc(e, d, next);
    }
  }

  lemma {:induction false} ExpressionLoopIsLocal<N>(alg: Algebra<N>, l: N, s: Bytes, next: Bytes) returns (c: Bytes)
    requires SameNext(ExpressionLoop(alg, l, s).rest, next)
    ensures Consumed(s, ExpressionLoop(alg, l, s), c)
    ensures ExpressionLoop(alg, l, c + next) == At(ExpressionLoop(alg, l, s), next)
    decreases |s|, 3
  {
    var gap, u := Gap(s), SkipSpace(s);
    if Peek(u) == PLUS || Peek(u) == MINUS {
      var op := if Peek(u) == PLUS then Add else Sub;
      SplitFirst(u);
      ExpressionLoopOperator(alg, l, gap, op, u[1..]);
      var right := Term(alg, u[1..]);
      var d: Bytes := [];
      if right.res.Ok? {
        d := ExpressionLoopIsLocal(alg, Combine(alg, op, l, right.res.value), right.rest, next);
      } else {
        assert d + right.rest == right.rest && d + next == next;
      }
      NextAfter(d, ExpressionLoop(alg, l, s).rest, next);
      var e := TermIsLocal(alg, u[1..], d + next);
      ExpressionLoopOperator(alg, l, gap, op, e + (d + next));
      c := gap + ([Symbol(op)] + (e + d));
      Regroup3(gap, [Symbol(op)], e, d, next);
      Regroup3(gap, [Symbol(op)], e, d, ExpressionLoop(alg, l, s).rest);
    } else {
      c := gap;
      SkipGap(gap, next);
      SkipsNothing(s, next);
    }
  }

  /** Two inputs that agree on the bytes the parser consumes, and on what it sees after them, are parsed
      alike up to there, errors included; the rest is not looked at. */
  lemma OnlyThePrefixMatters<N>(alg: Algebra<N>, c: Bytes, rest: Bytes, next: Bytes)
    requires Expression(alg, c + rest).rest == rest && SameNext(rest, next)
    ensures Expression(alg, c + next) == Step(Expression(alg, c + rest).res, next)
  {
    var d := ExpressionIsLocal(alg, c + rest, next);
    assert |c| == |d|;
    assert c == (c + rest)[..|c|] == d;
  }
}
