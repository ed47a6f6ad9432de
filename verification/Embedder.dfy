/** The deterministic embedder (internal/rag/embedder.go:19-54 and 134-138) before it normalises: feature
    hashing into integer coordinates.  SHA-256 is an arbitrary function of the token. */
module Embedder {
  import opened Wrappers

  /** unicode.IsLetter or unicode.IsDigit, unicode.ToLower, and the part of the hash that is used. */
  datatype Alphabet = Alphabet(isWord: char -> bool, lower: char -> char)

  datatype Hash = Hash(index: string -> nat, negative: string -> bool)

  // ---------- tokens ----------

  function LowerText(a: Alphabet, s: string): string {
    seq(|s|, i requires 0 <= i < |s| => a.lower(s[i]))
  }

  function RunLength(a: Alphabet, s: string): (n: nat)
    ensures n <= |s| && (n < |s| ==> !a.isWord(s[n]))
    ensures s != "" && a.isWord(s[0]) ==> 0 < n
    ensures forall i :: 0 <= i < n ==> a.isWord(s[i])
  {
    if s != "" && a.isWord(s[0]) then 1 + RunLength(a, s[1..]) else 0
  }

  /** strings.FieldsFunc: the maximal runs of letters and digits. */
  function Fields(a: Alphabet, s: string): seq<string>
    decreases |s|
  {
    if s == "" then []
    else if !a.isWord(s[0]) then Fields(a, s[1..])
    else [s[..RunLength(a, s)]] + Fields(a, s[RunLength(a, s)..])
  }

  function Tokenize(a: Alphabet, text: string): seq<string> {
    Fields(a, LowerText(a, text))
  }

  lemma {:induction false} RunLengthStops(a: Alphabet, s: string, t: string)
    requires t == "" || !a.isWord(t[0])
    ensures RunLength(a, s + t) == RunLength(a, s)
  {
    if s == "" {
      assert s + t == t;
    } else if a.isWord(s[0]) {
      assert (s + t)[1..] == s[1..] + t;
      RunLengthStops(a, s[1..], t);
    }
  }

  /** A separator parts the tokens before it from those after it. */
  lemma {:induction false} FieldsConcat(a: Alphabet, s: string, t: string)
    requires t == "" || !a.isWord(t[0])
    ensures Fields(a, s + t) == Fields(a, s) + Fields(a, t)
    decreases |s|
  {
    if s == "" {
      assert s + t == t;
    } else if !a.isWord(s[0]) {
      assert (s + t)[1..] == s[1..] + t;
      FieldsConcat(a, s[1..], t);
    } else {
      RunLengthStops(a, s, t);
      var n := RunLength(a, s);
      assert (s + t)[..n] == s[..n];
      assert (s + t)[n..] == s[n..] + t;
      FieldsConcat(a, s[n..], t);
    }
  }

  // ---------- the vector ----------

  function Zeros(dim: nat): seq<int> {
    seq(dim, _ => 0)
  }

  function Slot(h: Hash, dim: nat, token: string): nat
    requires 0 < dim
  {
    h.index(token) % dim
  }

  function Sign(h: Hash, token: string): int {
    if h.negative(token) then -1 else 1
  }

  /** What a token adds to coordinate k: its sign, if its hash falls on k. */
  function Share(h: Hash, dim: nat, token: string, k: nat): int
    requires 0 < dim
  {
    if h.index(token) % dim != k then 0 else if h.negative(token) then -1 else 1
  }

  /** The vector of a list of tokens. */
  function Vector(h: Hash, dim: nat, tokens: seq<string>): (v: seq<int>)
    requires 0 < dim
    ensures |v| == dim
  {
    if tokens == [] then Zeros(dim)
    else
      var v := Vector(h, dim, tokens[..|tokens| - 1]);
      var token := tokens[|tokens| - 1];
      v[Slot(h, dim, token) := v[Slot(h, dim, token)] + Sign(h, token)]
  }

  class DeterministicEmbedder {
    const dim: nat

    constructor (dim: int)
      ensures this.dim == if dim <= 0 then 64 else dim
    {
      this.dim := if dim <= 0 then 64 else dim;
    }

    /** The loop over one text's tokens, on a vector of zeros. */
    method AddTokens(vec: array<int>, h: Hash, tokens: seq<string>)
      requires 0 < dim && vec.Length == dim && vec[..] == Zeros(dim)
      modifies vec
      ensures vec[..] == Vector(h, dim, tokens)
    {
      for n := 0 to |tokens|
        invariant vec[..] == Vector(h, dim, tokens[..n])
      {
        assert tokens[..n + 1][..n] == tokens[..n];
        var idx := h.index(tokens[n]) % dim;
        var sign := 1;
        if h.negative(tokens[n]) {
          sign := -1;
        }
        vec[idx] := vec[idx] + sign;
      }
      assert tokens[..|tokens|] == tokens;
    }

    /** Embed; `doneAt` is the text before which the context was found done, if it was. */
    method Embed(a: Alphabet, h: Hash, texts: seq<string>, doneAt: Option<nat>) returns (out: Option<seq<seq<int>>>)
      requires 0 < dim
      ensures out == None <==> doneAt.Some? && doneAt.value < |texts|
      ensures out.Some? ==>
        |out.value| == |texts|
        && forall i :: 0 <= i < |texts| ==> out.value[i] == Vector(h, dim, Tokenize(a, texts[i]))
    {
      var vectors := [];
      for n := 0 to |texts|
        invariant |vectors| == n && (doneAt.Some? ==> n <= doneAt.value)
        invariant forall i :: 0 <= i < n ==> vectors[i] == Vector(h, dim, Tokenize(a, texts[i]))
      {
        if doneAt == Some(n) {
          return None;
        }
        var vec := new int[dim](_ => 0);
        AddTokens(vec, h, Tokenize(a, texts[n]));
        vectors := vectors + [vec[..]];
      }
      return Some(vectors);
    }
  }

  // ---------- what the vector depends on ----------

  function Total(h: Hash, dim: nat, tokens: seq<string>, k: nat): int
    requires 0 < dim
  {
    if tokens == [] then 0 else Share(h, dim, tokens[0], k) + Total(h, dim, tokens[1..], k)
  }

  lemma {:induction false} TotalConcat(h: Hash, dim: nat, ts: seq<string>, us: seq<string>, k: nat)
    requires 0 < dim
    ensures Total(h, dim, ts + us, k) == Total(h, dim, ts, k) + Total(h, dim, us, k)
  {
    if ts == [] {
      assert ts + us == us;
    } else {
      assert (ts + us)[1..] == ts[1..] + us;
      TotalConcat(h, dim, ts[1..], us, k);
    }
  }

  lemma {:induction false} VectorIsTotal(h: Hash, dim: nat, tokens: seq<string>, k: nat)
    requires 0 < dim && k < dim
    ensures Vector(h, dim, tokens)[k] == Total(h, dim, tokens, k)
  {
    if tokens != [] {
      var n := |tokens| - 1;
      VectorIsTotal(h, dim, tokens[..n], k);
      TotalConcat(h, dim, tokens[..n], [tokens[n]], k);
      assert tokens == tokens[..n] + [tokens[n]];
      assert Total(h, dim, [tokens[n]][1..], k) == 0;
    }
  }

  function Without(us: seq<string>, j: nat): seq<string>
    requires j < |us|
  {
    us[..j] + us[j + 1..]
  }

  lemma TotalWithout(h: Hash, dim: nat, us: seq<string>, j: nat, k: nat)
    requires 0 < dim && j < |us|
    ensures Total(h, dim, us, k) == Share(h, dim, us[j], k) + Total(h, dim, Without(us, j), k)
  {
    assert us == us[..j] + us[j..];
    TotalConcat(h, dim, us[..j], us[j..], k);
    TotalConcat(h, dim, us[..j], us[j + 1..], k);
  }

  lemma MultisetWithout(us: seq<string>, j: nat)
    requires j < |us|
    ensures multiset(Without(us, j)) == multiset(us) - multiset{us[j]}
  {
    assert us == us[..j] + [us[j]] + us[j + 1..];
  }

  lemma {:induction false} TotalPermutes(h: Hash, dim: nat, ts: seq<string>, us: seq<string>, k: nat)
    requires 0 < dim && multiset(ts) == multiset(us)
    ensures Total(h, dim, ts, k) == Total(h, dim, us, k)
  {
    if ts == [] {
      assert |multiset(us)| == 0;
    } else {
      assert ts[0] in multiset(us);
      var j :| 0 <= j < |us| && us[j] == ts[0];
      MultisetWithout(ts, 0);
      MultisetWithout(us, j);
      assert Without(ts, 0) == ts[1..];
      TotalPermutes(h, dim, ts[1..], Without(us, j), k);
      TotalWithout(h, dim, us, j, k);
    }
  }

  /** The vector depends only on which tokens occur how often. */
  lemma VectorOfMultiset(h: Hash, dim: nat, ts: seq<string>, us: seq<string>)
    requires 0 < dim && multiset(ts) == multiset(us)
    ensures Vector(h, dim, ts) == Vector(h, dim, us)
  {
    forall k | 0 <= k < dim ensures Vector(h, dim, ts)[k] == Vector(h, dim, us)[k] {
      VectorIsTotal(h, dim, ts, k);
      VectorIsTotal(h, dim, us, k);
      TotalPermutes(h, dim, ts, us, k);
    }
  }

  /** Joining two texts by a separator adds their vectors. */
  lemma VectorAdds(a: Alphabet, h: Hash, dim: nat, s: string, sep: char, t: string, k: nat)
    requires 0 < dim && k < dim && !a.isWord(a.lower(sep))
    ensures Vector(h, dim, Tokenize(a, s + [sep] + t))[k]
         == Vector(h, dim, Tokenize(a, s))[k] + Vector(h, dim, Tokenize(a, t))[k]
  {
    var l, r := LowerText(a, s), [a.lower(sep)] + LowerText(a, t);
    assert LowerText(a, s + [sep] + t) == l + r;
    FieldsConcat(a, l, r);
    assert r[1..] == LowerText(a, t);
    TotalConcat(h, dim, Fields(a, l), Fields(a, r), k);
    VectorIsTotal(h, dim, Fields(a, l) + Fields(a, r), k);
    VectorIsTotal(h, dim, Fields(a, l), k);
    VectorIsTotal(h, dim, Fields(a, r), k);
  }

  function Abs(x: int): nat {
    if x < 0 then -x else x
  }

  function L1(v: seq<int>): nat {
    if v == [] then 0 else Abs(v[0]) + L1(v[1..])
  }

  lemma {:induction false} L1Update(v: seq<int>, i: nat, x: int)
    requires i < |v|
    ensures L1(v[i := x]) == L1(v) - Abs(v[i]) + Abs(x) && Abs(v[i]) <= L1(v)
  {
    if i == 0 {
      assert v[0 := x][1..] == v[1..];
    } else {
      assert v[i := x][1..] == v[1..][i - 1 := x];
      L1Update(v[1..], i - 1, x);
    }
  }

  lemma {:induction false} L1Zeros(dim: nat)
    ensures L1(Zeros(dim)) == 0
  {
    if dim > 0 {
      assert Zeros(dim)[1..] == Zeros(dim - 1);
      L1Zeros(dim - 1);
    }
  }

  /** The vector's L1 norm falls short of the number of tokens by an even number: twice the number of
      tokens that met one of the opposite sign. */
  lemma {:induction false} NormBound(h: Hash, dim: nat, tokens: seq<string>) returns (met: nat)
    requires 0 < dim
    ensures L1(Vector(h, dim, tokens)) + 2 * met == |tokens|
  {
    if tokens == [] {
      L1Zeros(dim);
      met := 0;
    } else {
      var n := |tokens| - 1;
      met := NormBound(h, dim, tokens[..n]);
      var v := Vector(h, dim, tokens[..n]);
      var i := Slot(h, dim, tokens[n]);
      var x := v[i] + Sign(h, tokens[n]);
      L1Update(v, i, x);
      if Abs(x) < Abs(v[i]) {
        met := met + 1;
      }
    }
  }
}
