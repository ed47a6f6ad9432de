/** The calculator reads tokens: spaces between them never matter, to its errors no more than to its values. */
module CalculatorTokens {
  import opened Wrappers
  import opened Calculator
  import opened CalculatorGrammar

  predicate StartsNumber(b: byte) {
    IsDigit(b) || b == DOT
  }

  /** The length of the token an input begins with. */
  function FirstLength(u: Bytes): (n: nat)
    requires u != []
    ensures 0 < n <= |u|
  {
    if StartsNumber(u[0]) then ScanLength(u, false) else 1
  }

  /** The tokens of any input: numbers with at most one dot, and the other bytes one by one. */
  function Tokens(s: Bytes): seq<Bytes>
    decreases |s|
  {
    var u := SkipSpace(s);
    if u == [] then [] else [u[..FirstLength(u)]] + Tokens(u[FirstLength(u)..])
  }

  predicate Alike(s: Bytes, t: Bytes) {
    Tokens(s) == Tokens(t)
  }

  ghost predicate SameStep<N>(r: Step<N>, r': Step<N>) {
    r.res == r'.res && Alike(r.rest, r'.rest)
  }

  lemma TokensSkip(s: Bytes)
    ensures Tokens(SkipSpace(s)) == Tokens(s)
  {
    assert SkipSpace(SkipSpace(s)) == SkipSpace(s);
  }

  /** The first token of an input without leading spaces, and its other tokens. */
  lemma FirstToken(u: Bytes)
    requires SkipSpace(u) == u && u != []
    ensures var n := FirstLength(u); u[..n][0] == u[0] && Tokens(u) == [u[..n]] + Tokens(u[n..])
  {}

  lemma Cons<T>(x: T, xs: seq<T>, y: T, ys: seq<T>)
    requires [x] + xs == [y] + ys
    ensures x == y && xs == ys
  {
    assert ([x] + xs)[0] == ([y] + ys)[0];
    assert ([x] + xs)[1..] == xs && ([y] + ys)[1..] == ys;
  }

  lemma SameFirst(s: Bytes, t: Bytes)
    requires Alike(s, t)
    ensures var u, v := SkipSpace(s), SkipSpace(t);
      && (u == [] <==> v == []) && Peek(u) == Peek(v)
      && (u != [] ==>
            u[..FirstLength(u)] == v[..FirstLength(v)] && Alike(u[FirstLength(u)..], v[FirstLength(v)..]))
  {
    var u, v := SkipSpace(s), SkipSpace(t);
    TokensSkip(s);
    TokensSkip(t);
    if u != [] && v != [] {
      FirstToken(u);
      FirstToken(v);
      var n, m := FirstLength(u), FirstLength(v);
      Cons(u[..n], Tokens(u[n..]), v[..m], Tokens(v[m..]));
    }
  }

  lemma NumberAlike<N>(alg: Algebra<N>, s: Bytes, t: Bytes)
    requires Alike(s, t)
    ensures SameStep(Number(alg, s), Number(alg, t))
  {
    SameFirst(s, t);
    TokensSkip(s);
    TokensSkip(t);
  }

  lemma ClosedAlike<N>(body: Step<N>, body': Step<N>)
    requires SameStep(body, body')
    ensures SameStep(Closed(body), Closed(body'))
  {
    SameFirst(body.rest, body'.rest);
    TokensSkip(body.rest);
    TokensSkip(body'.rest);
  }

  lemma {:induction false} FactorAlike<N>(alg: Algebra<N>, s: Bytes, t: Bytes)
    requires Alike(s, t)
    ensures SameStep(Factor(alg, s), Factor(alg, t))
    decreases |s|, 0
  {
    var u, v := SkipSpace(s), SkipSpace(t);
    SameFirst(s, t);
    FactorCases(alg, s);
    FactorCases(alg, t);
    if Peek(u) == MINUS {
      FactorAlike(alg, u[1..], v[1..]);
    } else if Peek(u) == LPAREN {
      ExpressionAlike(alg, u[1..], v[1..]);
      ClosedAlike(Expression(alg, u[1..]), Expression(alg, v[1..]));
    } else {
      TokensSkip(s);
      TokensSkip(t);
      NumberAlike(alg, u, v);
    }
  }

  lemma {:induction false} TermAlike<N>(alg: Algebra<N>, s: Bytes, t: Bytes)
    requires Alike(s, t)
    ensures SameStep(Term(alg, s), Term(alg, t))
    decreases |s|, 2
  {
    FactorAlike(alg, s, t);
    var left := Factor(alg, s);
    if left.res.Ok? {
      TermLoopAlike(alg, left.res.value, left.rest, Factor(alg, t).rest);
    }
  }

  lemma {:induction false} TermLoopAlike<N>(alg: Algebra<N>, l: N, s: Bytes, t: Bytes)
    requires Alike(s, t)
    ensures SameStep(TermLoop(alg, l, s), TermLoop(alg, l, t))
    decreases |s|, 1
  {
    var u, v := SkipSpace(s), SkipSpace(t);
    SameFirst(s, t);
    TokensSkip(s);
    TokensSkip(t);
    if Peek(u) == TIMES || Peek(u) == OVER {
      var op := if Peek(u) == TIMES then Mul else Div;
      FactorAlike(alg, u[1..], v[1..]);
      var right := Factor(alg, u[1..]);
      if right.res.Ok? && Applied(alg, op, l, right.res.value).Ok? {
        TermLoopAlike(alg, Combine(alg, op, l, right.res.value), right.rest, Factor(alg, v[1..]).rest);
      }
    }
  }

  lemma {:induction false} ExpressionAlike<N>(alg: Algebra<N>, s: Bytes, t: Bytes)
    requires Alike(s, t)
    ensures SameStep(Expression(alg, s), Expression(alg, t))
    decreases |s|, 4
  {
    TermAlike(alg, s, t);
    var left := Term(alg, s);
    if left.res.Ok? {
      ExpressionLoopAlike(alg, left.res.value, left.rest, Term(alg, t).rest);
    }
  }

  lemma {:induction false} ExpressionLoopAlike<N>(alg: Algebra<N>, l: N, s: Bytes, t: Bytes)
    requires Alike(s, t)
    ensures SameStep(ExpressionLoop(alg, l, s), ExpressionLoop(alg, l, t))
    decreases |s|, 3
  {
    var u, v := SkipSpace(s), SkipSpace(t);
    SameFirst(s, t);
    TokensSkip(s);
    TokensSkip(t);
    if Peek(u) == PLUS || Peek(u) == MINUS {
      var op := if Peek(u) == PLUS then Add else Sub;
      TermAlike(alg, u[1..], v[1..]);
      var right := Term(alg, u[1..]);
      if right.res.Ok? {
        ExpressionLoopAlike(alg, Combine(alg, op, l, right.res.value), right.rest, Term(alg, v[1..]).rest);
      }
    }
  }

  /** Two inputs with the same tokens have the same result, the same error included. */
  lemma TokensDecide<N>(alg: Algebra<N>, s: Bytes, t: Bytes)
    requires Tokens(s) == Tokens(t)
    ensures Eval(alg, s) == Eval(alg, t)
  {
    ExpressionAlike(alg, s, t);
    SameFirst(Expression(alg, s).rest, Expression(alg, t).rest);
  }

  // ---------- where spaces may stand ----------

  lemma {:induction false} SkipConcat(s: Bytes, t: Bytes)
    ensures SkipSpace(s + t) == if SkipSpace(s) == [] then SkipSpace(t) else SkipSpace(s) + t
  {
    if s == [] {
      assert s + t == t;
    } else if IsSpace(s[0]) {
      assert (s + t)[1..] == s[1..] + t;
      SkipConcat(s[1..], t);
    }
  }

  lemma {:induction false} ScanConcat(s: Bytes, dotSeen: bool, t: Bytes)
    requires EndsNumber(t)
    ensures ScanLength(s + t, dotSeen) == ScanLength(s, dotSeen)
  {
    if s == [] {
      assert s + t == t;
    } else {
      assert (s + t)[1..] == s[1..] + t;
      ScanConcat(s[1..], dotSeen || s[0] == DOT, t);
      if dotSeen {
        ScanConcat(s[1..], dotSeen, t);
      }
    }
  }

  /** What cannot go on with a number stands apart from it. */
  lemma {:induction false} TokensConcat(s: Bytes, t: Bytes)
    requires EndsNumber(t)
    ensures Tokens(s + t) == Tokens(s) + Tokens(t)
    decreases |s|
  {
    var u := SkipSpace(s);
    SkipConcat(s, t);
    TokensSkip(s + t);
    TokensSkip(s);
    if u == [] {
      TokensSkip(t);
      assert [] + Tokens(t) == Tokens(t);
    } else {
      FirstConcat(u, t);
      FirstToken(u);
      FirstToken(u + t);
      var n := FirstLength(u);
      TokensConcat(u[n..], t);
      Assoc([u[..n]], Tokens(u[n..]), Tokens(t));
    }
  }

  lemma Assoc<T>(a: seq<T>, b: seq<T>, c: seq<T>)
    ensures (a + b) + c == a + (b + c)
  {}

  lemma FirstConcat(u: Bytes, t: Bytes)
    requires u != [] && SkipSpace(u) == u && EndsNumber(t)
    ensures var n := FirstLength(u);
      && SkipSpace(u + t) == u + t && FirstLength(u + t) == n
      && (u + t)[..n] == u[..n] && (u + t)[n..] == u[n..] + t
  {
    SkipConcat(u, t);
    ScanConcat(u, false, t);
  }

  lemma TokensAcross(s: Bytes, gap: Bytes, t: Bytes)
    requires Spaces(gap) && gap != []
    ensures Tokens(s + (gap + t)) == Tokens(s) + Tokens(t)
  {
    TokensConcat(s, gap + t);
    SkipGap(gap, t);
    TokensSkip(gap + t);
    TokensSkip(t);
  }

  /** Spaces may be put wherever no token is cut by them, and be made fewer or more where there are some. */
  lemma SpacesBetween<N>(alg: Algebra<N>, s: Bytes, gap: Bytes, gap': Bytes, t: Bytes)
    requires Spaces(gap) && Spaces(gap') && gap' != []
    requires gap == [] ==> Tokens(s + t) == Tokens(s) + Tokens(t)
    ensures Eval(alg, s + (gap + t)) == Eval(alg, s + (gap' + t))
  {
    TokensAcross(s, gap', t);
    if gap == [] {
      assert gap + t == t;
    } else {
      TokensAcross(s, gap, t);
    }
    TokensDecide(alg, s + (gap + t), s + (gap' + t));
  }
}
