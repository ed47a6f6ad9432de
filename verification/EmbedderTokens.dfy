/** What the embedder's tokens are (internal/rag/embedder.go:134-138): the maximal runs of letters and digits of
    the lower-cased text, all of them, whole and in order. */
module EmbedderTokens {
  import opened Text
  import opened Embedder

  predicate AllWord(a: Alphabet, s: string) {
    forall i :: 0 <= i < |s| ==> a.isWord(s[i])
  }

  predicate NoWord(a: Alphabet, s: string) {
    forall i :: 0 <= i < |s| ==> !a.isWord(s[i])
  }

  /** The letters and digits of a text, lower-cased. */
  function LoweredWords(a: Alphabet, text: string): string {
    if text == "" then ""
    else
      var c := a.lower(text[0]);
      (if a.isWord(c) then [c] else "") + LoweredWords(a, text[1..])
  }

  function WordChars(a: Alphabet, s: string): string {
    if s == "" then "" else (if a.isWord(s[0]) then [s[0]] else "") + WordChars(a, s[1..])
  }

  function Concat(parts: seq<string>): string {
    if parts == [] then "" else parts[0] + Concat(parts[1..])
  }

  lemma ConcatCons(part: string, parts: seq<string>)
    ensures Concat([part] + parts) == part + Concat(parts)
  {
    assert ([part] + parts)[1..] == parts;
  }

  // ---------- nothing is lost ----------

  lemma {:induction false} WordCharsOfRun(a: Alphabet, s: string, n: nat)
    requires n <= |s| && AllWord(a, s[..n])
    ensures WordChars(a, s) == s[..n] + WordChars(a, s[n..])
  {
    if n > 0 {
      assert s[..n][0] == s[0];
      assert s[1..][..n - 1] == s[..n][1..] && s[1..][n - 1..] == s[n..];
      WordCharsOfRun(a, s[1..], n - 1);
      assert s[..n] == [s[0]] + s[1..][..n - 1];
      assert [s[0]] + (s[1..][..n - 1] + WordChars(a, s[n..])) == s[..n] + WordChars(a, s[n..]);
    }
  }

  lemma {:induction false} FieldsConserve(a: Alphabet, s: string)
    ensures Concat(Fields(a, s)) == WordChars(a, s)
    decreases |s|
  {
    if s != "" {
      if a.isWord(s[0]) {
        var n := RunLength(a, s);
        FieldsConserve(a, s[n..]);
        WordCharsOfRun(a, s, n);
        ConcatCons(s[..n], Fields(a, s[n..]));
      } else {
        FieldsConserve(a, s[1..]);
        assert "" + WordChars(a, s[1..]) == WordChars(a, s[1..]);
      }
    }
  }

  lemma {:induction false} LoweredFirst(a: Alphabet, text: string)
    ensures WordChars(a, LowerText(a, text)) == LoweredWords(a, text)
  {
    if text != "" {
      assert LowerText(a, text)[1..] == LowerText(a, text[1..]);
      LoweredFirst(a, text[1..]);
    }
  }

  /** The tokens put together are the letters and digits of the text, lower-cased, all of them and in order. */
  lemma TokensConserve(a: Alphabet, text: string)
    ensures Concat(Tokenize(a, text)) == LoweredWords(a, text)
  {
    FieldsConserve(a, LowerText(a, text));
    LoweredFirst(a, text);
  }

  // ---------- nothing is cut ----------

  lemma {:induction false} RunOfWord(a: Alphabet, word: string, rest: string)
    requires AllWord(a, word) && (rest == "" || !a.isWord(rest[0]))
    ensures RunLength(a, word + rest) == |word|
  {
    if word == "" {
      assert word + rest == rest;
    } else {
      assert (word + rest)[1..] == word[1..] + rest;
      RunOfWord(a, word[1..], rest);
    }
  }

  lemma {:induction false} FieldsSkip(a: Alphabet, gap: string, rest: string)
    requires NoWord(a, gap)
    ensures Fields(a, gap + rest) == Fields(a, rest)
    decreases |gap|
  {
    if gap == "" {
      assert gap + rest == rest;
    } else {
      assert (gap + rest)[1..] == gap[1..] + rest;
      FieldsSkip(a, gap[1..], rest);
    }
  }

  /** A run of letters and digits between separators is one token, itself, and separators alone give none: with
      these two rules the tokens of any text can be written down. */
  lemma WordIsToken(a: Alphabet, gap: string, word: string, rest: string)
    requires NoWord(a, gap) && AllWord(a, word) && word != "" && (rest == "" || !a.isWord(rest[0]))
    ensures Fields(a, gap + (word + rest)) == [word] + Fields(a, rest)
    ensures Fields(a, gap) == []
  {
    FieldsSkip(a, gap, word + rest);
    RunOfWord(a, word, rest);
    assert (word + rest)[..|word|] == word && (word + rest)[|word|..] == rest;
    FieldsSkip(a, gap, "");
    assert gap + "" == gap;
  }

  /** The token stands at `i`, between separators or the ends of the text. */
  predicate StandsAt(a: Alphabet, s: string, token: string, i: int) {
    && OccursAt(s, token, i)
    && (i > 0 ==> !a.isWord(s[i - 1]))
    && (i + |token| < |s| ==> !a.isWord(s[i + |token|]))
  }

  /** The token is a non-empty run of letters and digits that stands whole at `i`. */
  predicate IsWholeAt(a: Alphabet, s: string, token: string, i: int) {
    token != "" && AllWord(a, token) && StandsAt(a, s, token, i) && 0 <= i < |s| && a.isWord(s[i])
  }

  lemma WholeLater(a: Alphabet, s: string, n: nat, rest: string, token: string, i: nat)
    requires 0 < n <= |s| && rest == s[n..] && IsWholeAt(a, rest, token, i)
    requires rest != "" && a.isWord(s[n - 1]) ==> !a.isWord(rest[0])
    ensures IsWholeAt(a, s, token, n + i)
  {
    assert s[n + i..n + i + |token|] == rest[i..i + |token|];
  }

  lemma RunIsWhole(a: Alphabet, s: string)
    requires s != "" && a.isWord(s[0])
    ensures var n := RunLength(a, s);
      && IsWholeAt(a, s, s[..n], 0)
      && Fields(a, s) == [s[..n]] + Fields(a, s[n..])
      && (s[n..] != "" ==> !a.isWord(s[n..][0]))
  {}

  /** Every token is a non-empty run of letters and digits of the lower-cased text, and a whole one. */
  lemma {:induction false} FieldsStand(a: Alphabet, s: string, fields: seq<string>, k: nat) returns (i: nat)
    requires fields == Fields(a, s) && k < |fields|
    ensures IsWholeAt(a, s, fields[k], i)
    decreases |s|
  {
    if !a.isWord(s[0]) {
      i := FieldsStand(a, s[1..], fields, k);
      WholeLater(a, s, 1, s[1..], fields[k], i);
      i := i + 1;
    } else {
      RunIsWhole(a, s);
      i := 0;
      if k > 0 {
        var n := RunLength(a, s);
        i := FieldsStand(a, s[n..], Fields(a, s[n..]), k - 1);
        WholeLater(a, s, n, s[n..], Fields(a, s[n..])[k - 1], i);
        i := i + n;
      }
    }
  }

  // ---------- how many there are ----------

  /** The places where a run of letters and digits begins, `after` one or not. */
  function Starts(a: Alphabet, s: string, after: bool): nat {
    if s == "" then 0
    else (if a.isWord(s[0]) && !after then 1 else 0) + Starts(a, s[1..], a.isWord(s[0]))
  }

  lemma {:induction false} StartsOfRun(a: Alphabet, s: string, n: nat)
    requires n <= |s| && AllWord(a, s[..n])
    ensures Starts(a, s, true) == Starts(a, s[n..], true)
  {
    if n > 0 {
      assert s[..n][0] == s[0];
      assert s[1..][..n - 1] == s[..n][1..] && s[1..][n - 1..] == s[n..];
      StartsOfRun(a, s[1..], n - 1);
    }
  }

  /** There are as many tokens as places where a run begins. */
  lemma {:induction false} FieldsCount(a: Alphabet, s: string)
    ensures |Fields(a, s)| == Starts(a, s, false)
    decreases |s|
  {
    if s != "" {
      if a.isWord(s[0]) {
        var n := RunLength(a, s);
        FieldsCount(a, s[n..]);
        assert s[1..][..n - 1] == s[..n][1..] && s[1..][n - 1..] == s[n..];
        StartsOfRun(a, s[1..], n - 1);
        assert Starts(a, s[n..], true) == Starts(a, s[n..], false);
      } else {
        FieldsCount(a, s[1..]);
      }
    }
  }
}
