/** The calculator tool's expression evaluator (internal/tool/builtin.go:247-383): a recursive-descent
    parser with a mutable cursor that evaluates while it parses.

    The class below is the evaluator in its own form.  Each of its methods is tied to a function on the
    bytes still to be read; `CalculatorGrammar` proves what those functions compute. */
module Calculator {
  import opened Wrappers

  newtype byte = b: int | 0 <= b < 256
  type Bytes = seq<byte>

  const PLUS: byte := 43
  const MINUS: byte := 45
  const TIMES: byte := 42
  const OVER: byte := 47
  const LPAREN: byte := 40
  const RPAREN: byte := 41
  const DOT: byte := 46
  const NUL: byte := 0

  datatype Error =
    | NumberExpected
    | BadLiteral
    | MissingParen
    | DivisionByZero
    | InvalidExpression
    | InvalidResult

  type Outcome<+N> = Result<N, Error>

  /** The number domain.  Every theorem holds for any choice of operations; `literal` stands for
      strconv.ParseFloat (None when it reports an error), `isZero` for the test `right == 0` and `finite`
      for the final Inf/NaN test. */
  datatype Algebra<!N> = Algebra(
    add: (N, N) -> N,
    sub: (N, N) -> N,
    mul: (N, N) -> N,
    div: (N, N) -> N,
    neg: N -> N,
    isZero: N -> bool,
    literal: Bytes -> Option<N>,
    finite: N -> bool)

  /** unicode.IsSpace on the Latin-1 reading of a byte. */
  predicate IsSpace(b: byte) {
    9 <= b <= 13 || b == 32 || b == 0x85 || b == 0xA0
  }

  /** unicode.IsDigit on the Latin-1 reading of a byte. */
  predicate IsDigit(b: byte) {
    48 <= b <= 57
  }

  // ---------- the parser on the bytes still to be read ----------

  /** What one parser method returns, and the bytes it leaves unread (on an error, too). */
  datatype Step<+N> = Step(res: Outcome<N>, rest: Bytes)

  function SkipSpace(s: Bytes): (r: Bytes)
    ensures |r| <= |s|
    ensures r == [] || !IsSpace(r[0])
  {
    if s != [] && IsSpace(s[0]) then SkipSpace(s[1..]) else s
  }

  function Peek(s: Bytes): byte {
    if s == [] then NUL else s[0]
  }

  /** How many bytes the number scanner takes: digits and at most one dot. */
  function ScanLength(s: Bytes, dotSeen: bool): (n: nat)
    ensures n <= |s|
  {
    if s == [] then 0
    else if s[0] == DOT && !dotSeen then 1 + ScanLength(s[1..], true)
    else if !IsDigit(s[0]) then 0
    else 1 + ScanLength(s[1..], dotSeen)
  }

  function Number<N>(alg: Algebra<N>, s: Bytes): (r: Step<N>)
    ensures |r.rest| <= |s|
  {
    var s := SkipSpace(s);
    var n := ScanLength(s, false);
    if n == 0 then Step(Err(NumberExpected), s)
    else
      match alg.literal(s[..n])
      case Some(v) => Step(Ok(v), s[n..])
      case None => Step(Err(BadLiteral), s[n..])
  }

  function Factor<N>(alg: Algebra<N>, s: Bytes): (r: Step<N>)
    ensures |r.rest| <= |s|
    decreases |s|, 0
  {
    var s := SkipSpace(s);
    if Peek(s) == MINUS then
      var arg := Factor(alg, s[1..]);
      Step(match arg.res case Ok(v) => Ok(alg.neg(v)) case Err(e) => Err(e), arg.rest)
    else if Peek(s) == LPAREN then
      var body := Expression(alg, s[1..]);
      if body.res.Err? then body
      else
        var close := SkipSpace(body.rest);
        if Peek(close) != RPAREN then Step(Err(MissingParen), close) else Step(body.res, close[1..])
    else Number(alg, s)
  }

  function Term<N>(alg: Algebra<N>, s: Bytes): (r: Step<N>)
    ensures |r.rest| <= |s|
    decreases |s|, 2
  {
    var left := Factor(alg, s);
    if left.res.Err? then left else TermLoop(alg, left.res.value, left.rest)
  }

  function TermLoop<N>(alg: Algebra<N>, left: N, s: Bytes): (r: Step<N>)
    ensures |r.rest| <= |s|
    decreases |s|, 1
  {
    var s := SkipSpace(s);
    if Peek(s) == TIMES then
      var right := Factor(alg, s[1..]);
      if right.res.Err? then right
      else TermLoop(alg, alg.mul(left, right.res.value), right.rest)
    else if Peek(s) == OVER then
      var right := Factor(alg, s[1..]);
      if right.res.Err? then right
      else if alg.isZero(right.res.value) then Step(Err(DivisionByZero), right.rest)
      else TermLoop(alg, alg.div(left, right.res.value), right.rest)
    else Step(Ok(left), s)
  }

  function Expression<N>(alg: Algebra<N>, s: Bytes): (r: Step<N>)
    ensures |r.rest| <= |s|
    decreases |s|, 4
  {
    var left := Term(alg, s);
    if left.res.Err? then left else ExpressionLoop(alg, left.res.value, left.rest)
  }

  function ExpressionLoop<N>(alg: Algebra<N>, left: N, s: Bytes): (r: Step<N>)
    ensures |r.rest| <= |s|
    decreases |s|, 3
  {
    var s := SkipSpace(s);
    if Peek(s) == PLUS then
      var right := Term(alg, s[1..]);
      if right.res.Err? then right
      else ExpressionLoop(alg, alg.add(left, right.res.value), right.rest)
    else if Peek(s) == MINUS then
      var right := Term(alg, s[1..]);
      if right.res.Err? then right
      else ExpressionLoop(alg, alg.sub(left, right.res.value), right.rest)
    else Step(Ok(left), s)
  }

  /** evalExpression: one expression, then only spaces up to the end of the input. */
  function Eval<N>(alg: Algebra<N>, input: Bytes): Outcome<N> {
    var r := Expression(alg, input);
    if r.res.Err? then r.res
    else if SkipSpace(r.rest) != [] then Err(InvalidExpression)
    else if !alg.finite(r.res.value) then Err(InvalidResult)
    else r.res
  }

  lemma SliceOfTail(s: Bytes, start: nat, end: nat)
    requires start <= end <= |s|
    ensures s[start..end] == s[start..][..end - start] && s[end..] == s[start..][end - start..]
  {}

  lemma ScanFrom(s: Bytes, k: nat, dotSeen: bool)
    requires k < |s|
    ensures ScanLength(s[k..], dotSeen)
         == if s[k] == DOT && !dotSeen then 1 + ScanLength(s[k + 1..], true)
            else if !IsDigit(s[k]) then 0
            else 1 + ScanLength(s[k + 1..], dotSeen)
  {
    assert s[k..][1..] == s[k + 1..];
  }

  // ---------- the parser with its cursor ----------

  class ExpressionParser<N> {
    const alg: Algebra<N>
    const input: Bytes
    var pos: nat

    ghost predicate Valid()
      reads this
    {
      pos <= |input|
    }

    /** The bytes still to be read. */
    ghost function Rest(): Bytes
      requires Valid()
      reads this
    {
      input[pos..]
    }

    constructor (alg: Algebra<N>, input: Bytes)
      ensures Valid() && Rest() == input && this.alg == alg && this.input == input
    {
      this.alg := alg;
      this.input := input;
      pos := 0;
    }

    method SkipSpaces()
      requires Valid()
      modifies this
      ensures Valid() && old(pos) <= pos
      ensures Rest() == SkipSpace(old(Rest()))
    {
      while pos < |input| && IsSpace(input[pos])
        invariant old(pos) <= pos <= |input|
        invariant SkipSpace(Rest()) == SkipSpace(old(Rest()))
      {
        assert Rest()[1..] == input[pos + 1..];
        pos := pos + 1;
      }
    }

    method PeekByte() returns (b: byte)
      requires Valid()
      ensures b == Peek(Rest())
    {
      if pos >= |input| {
        return NUL;
      }
      return input[pos];
    }

    /** Steps over the byte just peeked at. */
    method Advance()
      requires Valid() && pos < |input|
      modifies this
      ensures Valid() && pos == old(pos) + 1
      ensures Rest() == old(Rest())[1..]
    {
      pos := pos + 1;
    }

    method ParseNumber() returns (r: Outcome<N>)
      requires Valid()
      modifies this
      ensures Valid() && old(pos) <= pos
      ensures Step(r, Rest()) == Number(alg, old(Rest()))
    {
      SkipSpaces();
      var start := pos;
      ghost var s := Rest();
      var dotSeen := false;
      while pos < |input|
        invariant start <= pos <= |input|
        invariant ScanLength(s, false) == pos - start + ScanLength(Rest(), dotSeen)
      {
        var b := input[pos];
        ScanFrom(input, pos, dotSeen);
        if b == DOT && !dotSeen {
          dotSeen := true;
          pos := pos + 1;
          continue;
        }
        if !IsDigit(b) {
          break;
        }
        pos := pos + 1;
      }
      assert ScanLength(s, false) == pos - start;
      assert SkipSpace(s) == s;
      if start == pos {
        return Err(NumberExpected);
      }
      SliceOfTail(input, start, pos);
      match alg.literal(input[start..pos])
      case Some(v) => return Ok(v);
      case None => return Err(BadLiteral);
    }

    method ParseFactor() returns (r: Outcome<N>)
      requires Valid()
      modifies this
      ensures Valid() && old(pos) <= pos
      ensures Step(r, Rest()) == Factor(alg, old(Rest()))
      decreases |input| - pos, 0
    {
      SkipSpaces();
      var b := PeekByte();
      if b == MINUS {
        Advance();
        var arg := ParseFactor();
        match arg
        case Ok(v) => return Ok(alg.neg(v));
        case Err(e) => return Err(e);
      }
      if b == LPAREN {
        Advance();
        r := ParseExpression();
        if r.Err? {
          return;
        }
        SkipSpaces();
        b := PeekByte();
        if b != RPAREN {
          return Err(MissingParen);
        }
        Advance();
        return;
      }
      ghost var s := Rest();
      r := ParseNumber();
      assert SkipSpace(s) == s;
    }

    method ParseTerm() returns (r: Outcome<N>)
      requires Valid()
      modifies this
      ensures Valid() && old(pos) <= pos
      ensures Step(r, Rest()) == Term(alg, old(Rest()))
      decreases |input| - pos, 1
    {
      r := ParseFactor();
      if r.Err? {
        return;
      }
      var left := r.value;
      while true
        invariant Valid() && old(pos) <= pos
        invariant TermLoop(alg, left, Rest()) == Term(alg, old(Rest()))
        decreases |input| - pos
      {
        SkipSpaces();
        var b := PeekByte();
        if b == TIMES {
          Advance();
          r := ParseFactor();
          if r.Err? {
            return;
          }
          left := alg.mul(left, r.value);
        } else if b == OVER {
          Advance();
          r := ParseFactor();
          if r.Err? {
            return;
          }
          if alg.isZero(r.value) {
            return Err(DivisionByZero);
          }
          left := alg.div(left, r.value);
        } else {
          return Ok(left);
        }
      }
    }

    method ParseExpression() returns (r: Outcome<N>)
      requires Valid()
      modifies this
      ensures Valid() && old(pos) <= pos
      ensures Step(r, Rest()) == Expression(alg, old(Rest()))
      decreases |input| - pos, 2
    {
      r := ParseTerm();
      if r.Err? {
        return;
      }
      var left := r.value;
      while true
        invariant Valid() && old(pos) <= pos
        invariant ExpressionLoop(alg, left, Rest()) == Expression(alg, old(Rest()))
        decreases |input| - pos
      {
        SkipSpaces();
        var b := PeekByte();
        if b == PLUS {
          Advance();
          r := ParseTerm();
          if r.Err? {
            return;
          }
          left := alg.add(left, r.value);
        } else if b == MINUS {
          Advance();
          r := ParseTerm();
          if r.Err? {
            return;
          }
          left := alg.sub(left, r.value);
        } else {
          return Ok(left);
        }
      }
    }
  }

  method EvalExpression<N>(alg: Algebra<N>, input: Bytes) returns (r: Outcome<N>)
    ensures r == Eval(alg, input)
  {
    var p := new ExpressionParser(alg, input);
    r := p.ParseExpression();
    if r.Err? {
      return;
    }
    p.SkipSpaces();
    assert p.Rest() == [] <==> p.pos == |p.input|;
    if p.pos != |p.input| {
      return Err(InvalidExpression);
    }
    if !alg.finite(r.value) {
      return Err(InvalidResult);
    }
  }
}
