/** What the calculator's parser computes: the grammar it accepts, the tree every accepted string has,
    and the value of that tree. */
module CalculatorGrammar {
  import opened Wrappers
  import opened Calculator

  datatype Op = Add | Sub | Mul | Div

  // ---------- abstract syntax and its value ----------

  datatype Expr =
    | Lit(digits: Bytes)
    | Negate(arg: Expr)
    | Apply(op: Op, left: Expr, right: Expr)

  /** The value of an expression: operands first, left to right, then the operation. */
  function Value<N>(alg: Algebra<N>, e: Expr): Outcome<N> {
    match e
    case Lit(digits) =>
      (match alg.literal(digits) case Some(v) => Ok(v) case None => Err(BadLiteral))
    case Negate(arg) =>
      (match Value(alg, arg) case Ok(v) => Ok(alg.neg(v)) case Err(err) => Err(err))
    case Apply(op, left, right) =>
      var l := Value(alg, left);
      if l.Err? then l else
      var r := Value(alg, right);
      if r.Err? then r
      else if op == Div && alg.isZero(r.value) then Err(DivisionByZero)
      else Ok(Combine(alg, op, l.value, r.value))
  }

  function Combine<N>(alg: Algebra<N>, op: Op, l: N, r: N): N {
    match op
    case Add => alg.add(l, r)
    case Sub => alg.sub(l, r)
    case Mul => alg.mul(l, r)
    case Div => alg.div(l, r)
  }

  /** The value of a whole input with syntax tree `e`, with the test for Inf and NaN at the end. */
  function ResultOf<N>(alg: Algebra<N>, e: Expr): Outcome<N> {
    var r := Value(alg, e);
    if r.Ok? && !alg.finite(r.value) then Err(InvalidResult) else r
  }

  // ---------- concrete syntax ----------

  /** A derivation of the grammar
        expr   ::= term | expr ("+" | "-") term
        term   ::= factor | term ("*" | "/") factor
        factor ::= number | "-" factor | "(" expr ")"
      with the spaces that stand before each token. */
  datatype Tree =
    | Num(gap: Bytes, digits: Bytes)
    | Neg(gap: Bytes, arg: Tree)
    | Paren(gap: Bytes, body: Tree, close: Bytes)
    | Bin(left: Tree, gap: Bytes, op: Op, right: Tree)

  predicate Spaces(s: Bytes) {
    forall i :: 0 <= i < |s| ==> IsSpace(s[i])
  }

  /** A number token: digits with at most one dot, at least one byte ("." alone is a token). */
  predicate IsNumber(s: Bytes) {
    && s != []
    && (forall i :: 0 <= i < |s| ==> IsDigit(s[i]) || s[i] == DOT)
    && (forall i, j :: 0 <= i < |s| && 0 <= j < |s| && s[i] == DOT && s[j] == DOT ==> i == j)
  }

  predicate IsFactor(t: Tree)
    decreases t, 0
  {
    match t
    case Num(gap, digits) => Spaces(gap) && IsNumber(digits)
    case Neg(gap, arg) => Spaces(gap) && IsFactor(arg)
    case Paren(gap, body, close) => Spaces(gap) && Spaces(close) && IsExpr(body)
    case Bin(_, _, _, _) => false
  }

  predicate IsTerm(t: Tree)
    decreases t, 1
  {
    match t
    case Bin(left, gap, op, right) =>
      Spaces(gap) && (op == Mul || op == Div) && IsTerm(left) && IsFactor(right)
    case _ => IsFactor(t)
  }

  predicate IsExpr(t: Tree)
    decreases t, 2
  {
    match t
    case Bin(left, gap, op, right) =>
      if op == Mul || op == Div then IsTerm(t)
      else Spaces(gap) && IsExpr(left) && IsTerm(right)
    case _ => IsFactor(t)
  }

  function Symbol(op: Op): byte {
    match op
    case Add => PLUS
    case Sub => MINUS
    case Mul => TIMES
    case Div => OVER
  }

  /** The bytes a derivation stands for. */
  function Yield(t: Tree): Bytes {
    match t
    case Num(gap, digits) => gap + digits
    case Neg(gap, arg) => gap + [MINUS] + Yield(arg)
    case Paren(gap, body, close) => gap + [LPAREN] + Yield(body) + close + [RPAREN]
    case Bin(left, gap, op, right) => Yield(left) + gap + [Symbol(op)] + Yield(right)
  }

  /** The syntax tree of a derivation: spaces and parentheses are dropped. */
  function Shape(t: Tree): Expr {
    match t
    case Num(_, digits) => Lit(digits)
    case Neg(_, arg) => Negate(Shape(arg))
    case Paren(_, body, _) => Shape(body)
    case Bin(left, _, op, right) => Apply(op, Shape(left), Shape(right))
  }

  /** `t` followed by the spaces `tail` is a derivation of the whole of `s`. */
  predicate Derives(s: Bytes, t: Tree, tail: Bytes) {
    IsExpr(t) && Spaces(tail) && s == Yield(t) + tail
  }

  /** The bytes of a derivation, put before `rest`. */
  function Before(t: Tree, rest: Bytes): Bytes {
    match t
    case Num(gap, digits) => gap + (digits + rest)
    case Neg(gap, arg) => gap + ([MINUS] + Before(arg, rest))
    case Paren(gap, body, close) => gap + ([LPAREN] + Before(body, close + ([RPAREN] + rest)))
    case Bin(left, gap, op, right) => Before(left, gap + ([Symbol(op)] + Before(right, rest)))
  }

  lemma Regroup(a: Bytes, b: Bytes, c: Bytes, d: Bytes)
    ensures a + b + c + d == a + (b + (c + d))
  {}

  lemma {:induction false} BeforeIsYield(t: Tree, rest: Bytes)
    ensures Before(t, rest) == Yield(t) + rest
  {
    match t
    case Num(gap, digits) =>
    case Neg(gap, arg) =>
      BeforeIsYield(arg, rest);
      Regroup(gap, [MINUS], Yield(arg), rest);
    case Paren(gap, body, close) =>
      BeforeIsYield(body, close + ([RPAREN] + rest));
      Regroup(gap, [LPAREN], Yield(body), close + ([RPAREN] + rest));
      Regroup(gap + [LPAREN] + Yield(body), close, [RPAREN], rest);
    case Bin(left, gap, op, right) =>
      BeforeIsYield(right, rest);
      BeforeIsYield(left, gap + ([Symbol(op)] + (Yield(right) + rest)));
      Regroup(Yield(left), gap, [Symbol(op)], Yield(right) + rest);
      Regroup(Yield(left) + gap, [Symbol(op)], Yield(right), rest);
  }

  // ---------- scanning ----------

  lemma {:induction false} SkipGap(gap: Bytes, s: Bytes)
    requires Spaces(gap)
    ensures SkipSpace(gap + s) == SkipSpace(s)
  {
    if gap == [] {
      assert gap + s == s;
    } else {
      assert (gap + s)[1..] == gap[1..] + s;
      SkipGap(gap[1..], s);
    }
  }

  /** A number token cannot grow into what follows it. */
  predicate EndsNumber(s: Bytes) {
    s == [] || !(IsDigit(s[0]) || s[0] == DOT)
  }

  lemma {:induction false} ScanNumber(digits: Bytes, s: Bytes, dotSeen: bool)
    requires digits != [] ==> IsNumber(digits)
    requires dotSeen ==> DOT !in digits
    requires EndsNumber(s)
    ensures ScanLength(digits + s, dotSeen) == |digits|
  {
    if digits == [] {
      assert digits + s == s;
    } else {
      assert (digits + s)[1..] == digits[1..] + s;
      ScanNumber(digits[1..], s, dotSeen || digits[0] == DOT);
    }
  }

  lemma {:induction false} ScannedIsNumber(s: Bytes, dotSeen: bool)
    ensures var n := ScanLength(s, dotSeen);
      && (n > 0 ==> IsNumber(s[..n]))
      && (dotSeen ==> DOT !in s[..n])
  {
    if s != [] && ((s[0] == DOT && !dotSeen) || IsDigit(s[0])) {
      var seen := dotSeen || s[0] == DOT;
      var n := ScanLength(s[1..], seen);
      ScannedIsNumber(s[1..], seen);
      assert s[..n + 1] == [s[0]] + s[1..][..n];
    }
  }

  // ---------- one step of each parser function ----------

  lemma FactorSkips<N>(alg: Algebra<N>, gap: Bytes, s: Bytes)
    requires Spaces(gap)
    ensures Factor(alg, gap + s) == Factor(alg, s)
  {
    SkipGap(gap, s);
    assert SkipSpace(SkipSpace(s)) == SkipSpace(s);
  }

  function Negated<N>(alg: Algebra<N>, r: Step<N>): Step<N> {
    Step(match r.res case Ok(v) => Ok(alg.neg(v)) case Err(e) => Err(e), r.rest)
  }

  function Closed<N>(body: Step<N>): Step<N> {
    if body.res.Err? then body
    else
      var close := SkipSpace(body.rest);
      if Peek(close) != RPAREN then Step(Err(MissingParen), close) else Step(body.res, close[1..])
  }

  function Applied<N>(alg: Algebra<N>, op: Op, l: N, r: N): Outcome<N> {
    if op == Div && alg.isZero(r) then Err(DivisionByZero) else Ok(Combine(alg, op, l, r))
  }

  lemma FactorMinus<N>(alg: Algebra<N>, u: Bytes)
    ensures Factor(alg, [MINUS] + u) == Negated(alg, Factor(alg, u))
  {
    assert ([MINUS] + u)[1..] == u;
  }

  lemma FactorParen<N>(alg: Algebra<N>, u: Bytes)
    ensures Factor(alg, [LPAREN] + u) == Closed(Expression(alg, u))
  {
    assert ([LPAREN] + u)[1..] == u;
  }

  lemma FactorNumber<N>(alg: Algebra<N>, digits: Bytes, rest: Bytes)
    requires IsNumber(digits) && EndsNumber(rest)
    ensures Factor(alg, digits + rest)
         == Step(match alg.literal(digits) case Some(v) => Ok(v) case None => Err(BadLiteral), rest)
  {
    ScanNumber(digits, rest, false);
    assert (digits + rest)[..|digits|] == digits;
    assert (digits + rest)[|digits|..] == rest;
    assert (digits + rest)[0] == digits[0];
    assert SkipSpace(digits + rest) == digits + rest;
  }

  lemma TermLoopOperator<N>(alg: Algebra<N>, l: N, gap: Bytes, op: Op, u: Bytes)
    requires Spaces(gap) && (op == Mul || op == Div)
    ensures var r := Factor(alg, u);
      && (r.res.Err? ==> TermLoop(alg, l, gap + ([Symbol(op)] + u)) == r)
      && (r.res.Ok? ==>
            var v := Applied(alg, op, l, r.res.value);
            TermLoop(alg, l, gap + ([Symbol(op)] + u))
            == if v.Err? then Step(v, r.rest) else TermLoop(alg, v.value, r.rest))
  {
    var s := [Symbol(op)] + u;
    SkipGap(gap, s);
    assert s[1..] == u;
  }

  lemma ExpressionLoopOperator<N>(alg: Algebra<N>, l: N, gap: Bytes, op: Op, u: Bytes)
    requires Spaces(gap) && (op == Add || op == Sub)
    ensures var r := Term(alg, u);
      ExpressionLoop(alg, l, gap + ([Symbol(op)] + u))
      == if r.res.Err? then r else ExpressionLoop(alg, Combine(alg, op, l, r.res.value), r.rest)
  {
    var s := [Symbol(op)] + u;
    SkipGap(gap, s);
    assert s[1..] == u;
  }

  /** Where no operator follows, a loop drops the spaces and stops. */
  lemma TermLoopStops<N>(alg: Algebra<N>, l: N, s: Bytes)
    requires Peek(SkipSpace(s)) != TIMES && Peek(SkipSpace(s)) != OVER
    ensures TermLoop(alg, l, s) == Step(Ok(l), SkipSpace(s))
  {}

  lemma ExpressionLoopSkips<N>(alg: Algebra<N>, l: N, s: Bytes)
    ensures ExpressionLoop(alg, l, SkipSpace(s)) == ExpressionLoop(alg, l, s)
  {
    assert SkipSpace(SkipSpace(s)) == SkipSpace(s);
  }

  // ---------- completeness: a derivable string is parsed to the value of its tree ----------

  lemma {:induction false} FactorComplete<N>(alg: Algebra<N>, t: Tree, rest: Bytes)
    requires IsFactor(t) && EndsNumber(rest)
    ensures var r := Factor(alg, Before(t, rest)); var v := Value(alg, Shape(t));
      r.res == v && (v.Ok? ==> r.rest == rest)
    decreases t, 0
  {
    match t
    case Num(gap, digits) =>
      FactorSkips(alg, gap, digits + rest);
      FactorNumber(alg, digits, rest);
    case Neg(gap, arg) =>
      FactorSkips(alg, gap, [MINUS] + Before(arg, rest));
      FactorMinus(alg, Before(arg, rest));
      FactorComplete(alg, arg, rest);
    case Paren(gap, body, close) =>
      var tail := close + ([RPAREN] + rest);
      FactorSkips(alg, gap, [LPAREN] + Before(body, tail));
      FactorParen(alg, Before(body, tail));
      CloseEndsTerm(close, rest);
      ExpressionComplete(alg, body, tail);
  }

  lemma CloseEndsTerm(close: Bytes, rest: Bytes)
    requires Spaces(close)
    ensures var tail := close + ([RPAREN] + rest);
      && EndsTerm(tail)
      && SkipSpace(tail) == [RPAREN] + rest
      && ([RPAREN] + rest)[1..] == rest
  {
    SkipGap(close, [RPAREN] + rest);
  }

  lemma OperatorEndsNumber(gap: Bytes, op: Op, u: Bytes)
    requires Spaces(gap)
    ensures var tail := gap + ([Symbol(op)] + u);
      EndsNumber(tail) && (op == Add || op == Sub ==> EndsTerm(tail))
  {
    SkipGap(gap, [Symbol(op)] + u);
  }

  lemma {:induction false} TermComplete<N>(alg: Algebra<N>, t: Tree, rest: Bytes)
    requires IsTerm(t) && EndsNumber(rest)
    ensures var r := Term(alg, Before(t, rest)); var v := Value(alg, Shape(t));
      if v.Ok? then r == TermLoop(alg, v.value, rest) else r.res == v
    decreases t, 1
  {
    match t
    case Bin(left, gap, op, right) =>
      var u := Before(right, rest);
      OperatorEndsNumber(gap, op, u);
      TermComplete(alg, left, gap + ([Symbol(op)] + u));
      var l := Value(alg, Shape(left));
      if l.Ok? {
        TermLoopOperator(alg, l.value, gap, op, u);
        FactorComplete(alg, right, rest);
      }
    case _ =>
      FactorComplete(alg, t, rest);
  }

  /** What follows a whole expression's last term: no operator that would extend that term. */
  predicate EndsTerm(s: Bytes) {
    EndsNumber(s) && Peek(SkipSpace(s)) != TIMES && Peek(SkipSpace(s)) != OVER
  }

  lemma {:induction false} ExpressionComplete<N>(alg: Algebra<N>, t: Tree, rest: Bytes)
    requires IsExpr(t) && EndsTerm(rest)
    ensures var r := Expression(alg, Before(t, rest)); var v := Value(alg, Shape(t));
      if v.Ok? then r == ExpressionLoop(alg, v.value, rest) else r.res == v
    decreases t, 2
  {
    if t.Bin? && (t.op == Add || t.op == Sub) {
      var u := Before(t.right, rest);
      OperatorEndsNumber(t.gap, t.op, u);
      ExpressionComplete(alg, t.left, t.gap + ([Symbol(t.op)] + u));
      var l := Value(alg, Shape(t.left));
      if l.Ok? {
        ExpressionLoopOperator(alg, l.value, t.gap, t.op, u);
        TermComplete(alg, t.right, rest);
        var r := Value(alg, Shape(t.right));
        if r.Ok? {
          TermLoopStops(alg, r.value, rest);
          ExpressionLoopSkips(alg, Combine(alg, t.op, l.value, r.value), rest);
        }
      }
    } else {
      TermComplete(alg, t, rest);
      var v := Value(alg, Shape(t));
      if v.Ok? {
        TermLoopStops(alg, v.value, rest);
        ExpressionLoopSkips(alg, v.value, rest);
      }
    }
  }

  lemma EvalDerived<N>(alg: Algebra<N>, s: Bytes, t: Tree, tail: Bytes)
    requires Derives(s, t, tail)
    ensures Eval(alg, s) == ResultOf(alg, Shape(t))
  {
    assert tail + [] == tail;
    SkipGap(tail, []);
    BeforeIsYield(t, tail);
    ExpressionComplete(alg, t, tail);
  }

  // ---------- soundness: a successful parse is a derivation ----------

  /** The spaces `SkipSpace` drops. */
  function Gap(s: Bytes): (gap: Bytes)
    ensures Spaces(gap) && s == gap + SkipSpace(s)
  {
    if s != [] && IsSpace(s[0]) then
      assert s == [s[0]] + s[1..];
      [s[0]] + Gap(s[1..])
    else []
  }

  lemma SplitFirst(s: Bytes)
    requires s != []
    ensures s == [s[0]] + s[1..]
  {}

  lemma NumberSound<N>(alg: Algebra<N>, u: Bytes) returns (digits: Bytes)
    requires SkipSpace(u) == u && Number(alg, u).res.Ok?
    ensures IsNumber(digits) && u == digits + Number(alg, u).rest
  {
    ScannedIsNumber(u, false);
    digits := u[..ScanLength(u, false)];
  }

  lemma ParenSound<N>(body: Step<N>) returns (close: Bytes)
    requires Closed(body).res.Ok?
    ensures Spaces(close) && body.rest == close + ([RPAREN] + Closed(body).rest)
  {
    close := Gap(body.rest);
    SplitFirst(SkipSpace(body.rest));
  }

  lemma FactorCases<N>(alg: Algebra<N>, s: Bytes)
    ensures var u := SkipSpace(s);
      && SkipSpace(u) == u
      && Factor(alg, s) ==
         if Peek(u) == MINUS then Negated(alg, Factor(alg, u[1..]))
         else if Peek(u) == LPAREN then Closed(Expression(alg, u[1..]))
         else Number(alg, u)
  {}

  lemma {:induction false} FactorSound<N>(alg: Algebra<N>, s: Bytes) returns (t: Tree)
    requires Factor(alg, s).res.Ok?
    ensures IsFactor(t) && s == Before(t, Factor(alg, s).rest)
    decreases |s|, 0
  {
    var u := SkipSpace(s);
    FactorCases(alg, s);
    if Peek(u) == MINUS {
      SplitFirst(u);
      var arg := FactorSound(alg, u[1..]);
      t := Neg(Gap(s), arg);
    } else if Peek(u) == LPAREN {
      SplitFirst(u);
      var body, w := ExpressionSound(alg, u[1..]);
      var close := ParenSound(Expression(alg, u[1..]));
      t := Paren(Gap(s), body, w + close);
      assert w + Expression(alg, u[1..]).rest == w + close + ([RPAREN] + Factor(alg, s).rest);
    } else {
      var digits := NumberSound(alg, u);
      t := Num(Gap(s), digits);
    }
  }

  lemma {:induction false} TermSound<N>(alg: Algebra<N>, s: Bytes) returns (t: Tree, w: Bytes)
    requires Term(alg, s).res.Ok?
    ensures IsTerm(t) && Spaces(w) && s == Before(t, w + Term(alg, s).rest)
    decreases |s|, 2
  {
    var left := FactorSound(alg, s);
    var l := Factor(alg, s);
    t, w := TermLoopSound(alg, left, l.res.value, l.rest);
  }

  lemma {:induction false} TermLoopSound<N>(alg: Algebra<N>, left: Tree, l: N, s: Bytes)
    returns (t: Tree, w: Bytes)
    requires IsTerm(left) && TermLoop(alg, l, s).res.Ok?
    ensures IsTerm(t) && Spaces(w) && Before(left, s) == Before(t, w + TermLoop(alg, l, s).rest)
    decreases |s|, 1
  {
    var u := SkipSpace(s);
    if Peek(u) == TIMES || Peek(u) == OVER {
      var op := if Peek(u) == TIMES then Mul else Div;
      SplitFirst(u);
      var right := FactorSound(alg, u[1..]);
      var r := Factor(alg, u[1..]);
      t, w := TermLoopSound(alg, Bin(left, Gap(s), op, right), Combine(alg, op, l, r.res.value), r.rest);
    } else {
      t, w := left, Gap(s);
    }
  }

  lemma {:induction false} ExpressionSound<N>(alg: Algebra<N>, s: Bytes) returns (t: Tree, w: Bytes)
    requires Expression(alg, s).res.Ok?
    ensures IsExpr(t) && Spaces(w) && s == Before(t, w + Expression(alg, s).rest)
    decreases |s|, 4
  {
    var left, w0 := TermSound(alg, s);
    var l := Term(alg, s);
    t, w := ExpressionLoopSound(alg, left, w0, l.res.value, l.rest);
  }

  lemma {:induction false} ExpressionLoopSound<N>(alg: Algebra<N>, left: Tree, gap: Bytes, l: N, s: Bytes)
    returns (t: Tree, w: Bytes)
    requires IsExpr(left) && Spaces(gap) && ExpressionLoop(alg, l, s).res.Ok?
    ensures IsExpr(t) && Spaces(w)
    ensures Before(left, gap + s) == Before(t, w + ExpressionLoop(alg, l, s).rest)
    decreases |s|, 3
  {
    var u := SkipSpace(s);
    assert gap + s == gap + Gap(s) + u;
    if Peek(u) == PLUS || Peek(u) == MINUS {
      var op := if Peek(u) == PLUS then Add else Sub;
      SplitFirst(u);
      var right, w0 := TermSound(alg, u[1..]);
      var r := Term(alg, u[1..]);
      var bin := Bin(left, gap + Gap(s), op, right);
      t, w := ExpressionLoopSound(alg, bin, w0, Combine(alg, op, l, r.res.value), r.rest);
    } else {
      t, w := left, gap + Gap(s);
    }
  }

  lemma EvalSound<N>(alg: Algebra<N>, s: Bytes) returns (t: Tree, tail: Bytes)
    requires Eval(alg, s).Ok?
    ensures Derives(s, t, tail)
  {
    var w;
    t, w := ExpressionSound(alg, s);
    var rest := Expression(alg, s).rest;
    tail := w + Gap(rest);
    assert w + rest == tail;
    BeforeIsYield(t, tail);
  }

  // ---------- main results ----------

  /** The evaluator succeeds with `v` exactly on the strings that have a derivation whose tree evaluates to
      `v` (every literal converts, no divisor is zero) and `v` passes the final test. */
  lemma EvalIff<N(!new)>(alg: Algebra<N>, s: Bytes, v: N)
    ensures Eval(alg, s) == Ok(v)
       <==> exists t, tail :: Derives(s, t, tail) && Value(alg, Shape(t)) == Ok(v) && alg.finite(v)
  {
    if Eval(alg, s) == Ok(v) {
      var t, tail := EvalSound(alg, s);
      EvalDerived(alg, s, t, tail);
      assert Derives(s, t, tail) && Value(alg, Shape(t)) == Ok(v);
    }
    forall t, tail | Derives(s, t, tail) && Value(alg, Shape(t)) == Ok(v) && alg.finite(v)
      ensures Eval(alg, s) == Ok(v)
    {
      EvalDerived(alg, s, t, tail);
    }
  }

  /** The algebra of syntax trees: evaluating in it is parsing. */
  const TREES: Algebra<Expr> := Algebra(
    (l, r) => Apply(Add, l, r),
    (l, r) => Apply(Sub, l, r),
    (l, r) => Apply(Mul, l, r),
    (l, r) => Apply(Div, l, r),
    a => Negate(a),
    _ => false,
    digits => Some(Lit(digits)),
    _ => true)

  function Parse(s: Bytes): Outcome<Expr> {
    Eval(TREES, s)
  }

  lemma {:induction false} ValueInTrees(e: Expr)
    ensures Value(TREES, e) == Ok(e)
  {
    match e
    case Lit(_) =>
    case Negate(arg) => ValueInTrees(arg);
    case Apply(_, left, right) =>
      ValueInTrees(left);
      ValueInTrees(right);
  }

  /** Evaluating while parsing is parsing first and evaluating the tree afterwards, with the same error
      for every string that parses; a string that does not parse has no value. */
  lemma FusedIsParseThenValue<N>(alg: Algebra<N>, s: Bytes)
    ensures match Parse(s)
      case Ok(e) => Eval(alg, s) == ResultOf(alg, e)
      case Err(_) => Eval(alg, s).Err?
  {
    if Parse(s).Ok? {
      var t, tail := EvalSound(TREES, s);
      EvalDerived(TREES, s, t, tail);
      ValueInTrees(Shape(t));
      EvalDerived(alg, s, t, tail);
    } else if Eval(alg, s).Ok? {
      var t, tail := EvalSound(alg, s);
      EvalDerived(TREES, s, t, tail);
      ValueInTrees(Shape(t));
      assert false;
    }
  }

  /** No string has two syntax trees. */
  lemma Unambiguous(s: Bytes, t: Tree, tail: Bytes, t': Tree, tail': Bytes)
    requires Derives(s, t, tail) && Derives(s, t', tail')
    ensures Shape(t) == Shape(t')
  {
    EvalDerived(TREES, s, t, tail);
    ValueInTrees(Shape(t));
    EvalDerived(TREES, s, t', tail');
    ValueInTrees(Shape(t'));
  }

  // ---------- printing ----------

  predicate IsAt(level: nat, t: Tree) {
    if level == 0 then IsExpr(t) else if level == 1 then IsTerm(t) else IsFactor(t)
  }

  function Precedence(op: Op): nat {
    if op == Add || op == Sub then 0 else 1
  }

  predicate WellLexed(e: Expr) {
    match e
    case Lit(digits) => IsNumber(digits)
    case Negate(arg) => WellLexed(arg)
    case Apply(_, left, right) => WellLexed(left) && WellLexed(right)
  }

  /** Prints a tree with parentheses only where precedence or left association asks for them. */
  function Unparse(e: Expr, level: nat): Tree {
    match e
    case Lit(digits) => Num([], digits)
    case Negate(arg) => Neg([], Unparse(arg, 2))
    case Apply(op, left, right) =>
      var p := Precedence(op);
      var bin := Bin(Unparse(left, p), [], op, Unparse(right, p + 1));
      if level > p then Paren([], bin, []) else bin
  }

  /** The derivation without its spaces. */
  function Strip(t: Tree): Tree {
    match t
    case Num(_, digits) => Num([], digits)
    case Neg(_, arg) => Neg([], Strip(arg))
    case Paren(_, body, _) => Paren([], Strip(body), [])
    case Bin(left, _, op, right) => Bin(Strip(left), [], op, Strip(right))
  }

  lemma {:induction false} UnparseDerives(e: Expr, level: nat)
    requires WellLexed(e)
    ensures IsAt(level, Unparse(e, level)) && Shape(Unparse(e, level)) == e
    decreases e
  {
    match e
    case Lit(_) =>
    case Negate(arg) => UnparseDerives(arg, 2);
    case Apply(op, left, right) =>
      UnparseDerives(left, Precedence(op));
      UnparseDerives(right, Precedence(op) + 1);
  }

  lemma {:induction false} StripKeepsShape(t: Tree)
    ensures Shape(Strip(t)) == Shape(t)
  {
    match t
    case Num(_, _) =>
    case Neg(_, arg) => StripKeepsShape(arg);
    case Paren(_, body, _) => StripKeepsShape(body);
    case Bin(left, _, _, right) =>
      StripKeepsShape(left);
      StripKeepsShape(right);
  }

  /** Two strings that differ only in the spaces between their tokens have the same result. */
  lemma SpacesDoNotMatter<N>(alg: Algebra<N>, s: Bytes, t: Tree, tail: Bytes, s': Bytes, t': Tree, tail': Bytes)
    requires Derives(s, t, tail) && Derives(s', t', tail') && Strip(t) == Strip(t')
    ensures Eval(alg, s) == Eval(alg, s')
  {
    EvalDerived(alg, s, t, tail);
    EvalDerived(alg, s', t', tail');
    StripKeepsShape(t);
    StripKeepsShape(t');
  }

  /** Round trip: a tree printed with minimal parentheses and any spaces between the tokens parses back to
      the tree, and evaluates to its value. */
  lemma RoundTrip<N>(alg: Algebra<N>, e: Expr, s: Bytes, t: Tree, tail: Bytes)
    requires WellLexed(e) && Derives(s, t, tail) && Strip(t) == Unparse(e, 0)
    ensures Parse(s) == Ok(e) && Eval(alg, s) == ResultOf(alg, e)
  {
    UnparseDerives(e, 0);
    StripKeepsShape(t);
    EvalDerived(alg, s, t, tail);
    EvalDerived(TREES, s, t, tail);
    ValueInTrees(e);
  }

  function Parens(t: Tree): nat {
    match t
    case Num(_, _) => 0
    case Neg(_, arg) => Parens(arg)
    case Paren(_, body, _) => 1 + Parens(body)
    case Bin(left, _, _, right) => Parens(left) + Parens(right)
  }

  /** The levels a derivation's parts stand at. */
  lemma Parts(t: Tree, level: nat)
    requires IsAt(level, t)
    ensures match t
      case Num(gap, digits) => Spaces(gap) && IsNumber(digits)
      case Neg(gap, arg) => Spaces(gap) && IsFactor(arg)
      case Paren(gap, body, close) => Spaces(gap) && Spaces(close) && IsExpr(body)
      case Bin(left, gap, op, right) =>
        Spaces(gap) && level <= Precedence(op) && IsAt(Precedence(op), left) && IsAt(Precedence(op) + 1, right)
  {
    if t.Bin? {
      assert level <= 1;
      assert t.op == Mul || t.op == Div ==> IsTerm(t);
    } else {
      assert IsFactor(t);
    }
  }

  lemma {:induction false} MinimalAt(t: Tree, level: nat)
    requires IsAt(level, t)
    ensures Parens(Unparse(Shape(t), level)) <= Parens(t)
  {
    Parts(t, level);
    match t
    case Num(_, _) =>
    case Neg(_, arg) =>
      MinimalAt(arg, 2);
    case Paren(_, body, _) =>
      MinimalAt(body, 0);
      assert Parens(Unparse(Shape(body), level)) <= 1 + Parens(Unparse(Shape(body), 0));
    case Bin(left, _, op, right) =>
      MinimalAt(left, Precedence(op));
      MinimalAt(right, Precedence(op) + 1);
  }

  /** No derivation of a tree has fewer parentheses than the printed one. */
  lemma UnparseIsMinimal(t: Tree)
    requires IsExpr(t)
    ensures Parens(Unparse(Shape(t), 0)) <= Parens(t)
  {
    MinimalAt(t, 0);
  }

  // ---------- the bytes of an accepted input ----------

  predicate IsTokenByte(b: byte) {
    IsSpace(b) || IsDigit(b) || b == DOT || b == LPAREN || b == RPAREN
    || b == PLUS || b == MINUS || b == TIMES || b == OVER
  }

  predicate TokenBytes(s: Bytes) {
    forall i :: 0 <= i < |s| ==> IsTokenByte(s[i])
  }

  lemma {:induction false} YieldBytes(level: nat, t: Tree)
    requires IsAt(level, t)
    ensures TokenBytes(Yield(t))
    decreases t
  {
    Parts(t, level);
    match t
    case Num(_, _) =>
    case Neg(_, arg) =>
      YieldBytes(2, arg);
    case Paren(_, body, _) =>
      YieldBytes(0, body);
    case Bin(left, _, op, right) =>
      YieldBytes(Precedence(op), left);
      YieldBytes(Precedence(op) + 1, right);
  }

  /** Every byte of an accepted input is part of a token or a space: in particular a NUL byte, which
      `Peek` cannot tell from the end of the input, is always refused. */
  lemma AcceptedBytes<N>(alg: Algebra<N>, s: Bytes)
    requires Eval(alg, s).Ok?
    ensures TokenBytes(s) && NUL !in s
  {
    var t, tail := EvalSound(alg, s);
    YieldBytes(0, t);
  }
}
