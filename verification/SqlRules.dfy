/** What checkSQL (internal/policy/policy.go:130-165) lets pass, said of the query's text alone. */
module SqlRules {
  import opened Wrappers
  import opened Text
  import opened Sql

  /** No two dashes, no slash before a star, and no hash sign. */
  predicate NoComment(t: string) {
    forall i :: 0 <= i < |t| ==>
      && t[i] != '#'
      && !(i + 1 < |t| && t[i] == '-' && t[i + 1] == '-')
      && !(i + 1 < |t| && t[i] == '/' && t[i + 1] == '*')
  }

  /** Semicolons stand only at the end. */
  predicate OneStatement(t: string) {
    forall i, j :: 0 <= i < j < |t| && t[i] == ';' ==> t[j] == ';'
  }

  /** No maximal word is a keyword, in any case of its letters. */
  predicate NoKeyword(t: string) {
    forall w, k :: w in Words(t) && 0 <= k < |KEYWORDS| ==> !SameText(w, KEYWORDS[k])
  }

  predicate BeginsWithSelect(t: string) {
    SpelledAt(t, "select", 0)
  }

  predicate BeginsWithWith(t: string) {
    SpelledAt(t, "with", 0)
  }

  predicate NamesSelect(t: string) {
    exists i :: 0 <= i < |t| && SpelledAt(t, "select", i)
  }

  /** The characters from `a` to `b` are a whole word. */
  predicate IsWhole(t: string, a: int, b: int) {
    && 0 <= a < b <= |t|
    && (forall i :: a <= i < b ==> IsWord(t[i]))
    && (a > 0 ==> !IsWord(t[a - 1]))
    && (b < |t| ==> !IsWord(t[b]))
  }

  /** The word "limit", in any case, at least one space, and a word of digits. */
  predicate LimitsAt(t: string, i: int, j: int, k: int) {
    && IsWhole(t, i, i + 5) && SpelledAt(t, "limit", i)
    && i + 5 < j && (forall n :: i + 5 <= n < j && n < |t| ==> IsRegexSpace(t[n]))
    && IsWhole(t, j, k) && (forall n :: j <= n < k ==> '0' <= t[n] <= '9')
  }

  predicate NamesLimit(t: string) {
    exists i, j, k :: 0 <= i < j < k <= |t| && LimitsAt(t, i, j, k)
  }

  /** The name stands at `i`, in any case of its letters, and is no part of a longer word. */
  predicate NamedAt(t: string, name: string, i: int) {
    SpelledAt(t, name, i) && Boundary(t, i) && Boundary(t, i + |name|)
  }

  predicate Names(t: string, name: string) {
    exists i :: 0 <= i <= |t| && NamedAt(t, name, i)
  }

  predicate NoBlockedTable(tables: seq<string>, t: string) {
    forall table :: table in tables && TrimSpace(table) != "" ==> !Names(t, TrimSpace(table))
  }

  /** What an accepted query is. */
  predicate IsSafe(p: Policy, q: string) {
    var t := TrimSpace(q);
    && t != ""
    && NoComment(t)
    && OneStatement(t)
    && NoKeyword(t)
    && (BeginsWithSelect(t) || (BeginsWithWith(t) && NamesSelect(t)))
    && NoBlockedTable(p.blockedTables, t)
    && (p.requireLimit ==> NamesLimit(t))
  }

  // ---------- each test, and its rule ----------

  lemma LowerKeeps(t: string, c: char)
    requires !('A' <= c <= 'Z') && !('a' <= c <= 'z')
    ensures forall i :: 0 <= i < |t| ==> (Lower(t)[i] == c <==> t[i] == c)
  {}

  lemma PairOccurs(s: string, pair: string)
    requires |pair| == 2
    ensures Contains(s, pair) <==> exists i :: 0 <= i < |s| - 1 && s[i] == pair[0] && s[i + 1] == pair[1]
  {
    if Contains(s, pair) {
      var i :| 0 <= i <= |s| - 2 && OccursAt(s, pair, i);
      assert s[i] == s[i..i + 2][0] && s[i + 1] == s[i..i + 2][1];
    }
    if exists i :: 0 <= i < |s| - 1 && s[i] == pair[0] && s[i + 1] == pair[1] {
      var i :| 0 <= i < |s| - 1 && s[i] == pair[0] && s[i + 1] == pair[1];
      assert s[i..i + 2] == pair;
      assert OccursAt(s, pair, i);
    }
  }

  lemma CharOccurs(s: string, c: char)
    ensures Contains(s, [c]) <==> c in s
  {
    if Contains(s, [c]) {
      var i :| 0 <= i <= |s| - 1 && OccursAt(s, [c], i);
      assert s[i] == s[i..i + 1][0];
    }
    if c in s {
      var i :| 0 <= i < |s| && s[i] == c;
      assert s[i..i + 1] == [c];
      assert OccursAt(s, [c], i);
    }
  }

  lemma CommentIff(t: string)
    ensures HasComment(Lower(t)) <==> !NoComment(t)
  {
    var s := Lower(t);
    LowerKeeps(t, '-');
    LowerKeeps(t, '/');
    LowerKeeps(t, '*');
    LowerKeeps(t, '#');
    PairOccurs(s, "--");
    PairOccurs(s, "/*");
    CharOccurs(s, '#');
    assert ['#'] == "#";
    if !NoComment(t) {
      var i :| 0 <= i < |t| && !(
        && t[i] != '#'
        && !(i + 1 < |t| && t[i] == '-' && t[i + 1] == '-')
        && !(i + 1 < |t| && t[i] == '/' && t[i + 1] == '*'));
      assert t[i] == '#' ==> s[i] == '#';
    }
  }

  lemma {:induction false} TrimmedSemicolons(t: string)
    ensures var base := TrimSemicolons(t);
      && |base| <= |t| && t[..|base|] == base
      && (base != "" ==> base[|base| - 1] != ';')
      && forall i :: |base| <= i < |t| ==> t[i] == ';'
  {
    if t != "" && t[|t| - 1] == ';' {
      TrimmedSemicolons(t[..|t| - 1]);
    }
  }

  lemma StatementIff(t: string)
    ensures Contains(TrimSemicolons(t), ";") <==> !OneStatement(t)
  {
    var base := TrimSemicolons(t);
    TrimmedSemicolons(t);
    CharOccurs(base, ';');
    assert [';'] == ";";
    assert forall i :: 0 <= i < |base| ==> t[i] == base[i];
    if ';' in base {
      var i :| 0 <= i < |base| && base[i] == ';';
      assert t[i] == ';' && t[|base| - 1] != ';';
    }
  }

  lemma SelectIff(t: string)
    ensures "select" <= Lower(t) <==> BeginsWithSelect(t)
    ensures "with" <= Lower(t) <==> BeginsWithWith(t)
    ensures Contains(Lower(t), "select") <==> NamesSelect(t)
  {
    SpelledIff(t, "select", 0);
    SpelledIff(t, "with", 0);
    ContainsIff(t, "select");
  }

  lemma LowerChars(t: string)
    ensures forall i :: 0 <= i < |t| ==>
      && (IsWord(Lower(t)[i]) <==> IsWord(t[i]))
      && (IsRegexSpace(Lower(t)[i]) <==> IsRegexSpace(t[i]))
      && ('0' <= Lower(t)[i] <= '9' <==> '0' <= t[i] <= '9')
  {}

  lemma LimitAtIff(t: string, i: int, j: int, k: int)
    ensures 0 <= i < j < k <= |t| && LimitAt(Lower(t), i, j, k) <==> LimitsAt(t, i, j, k)
  {
    var s := Lower(t);
    LowerChars(t);
    SpelledIff(t, "limit", i);
    if 0 <= i <= |t| - 5 && OccursAt(s, "limit", i) {
      LimitIsWord(s, i);
    }
  }

  lemma LimitIsWord(s: string, i: int)
    requires OccursAt(s, "limit", i)
    ensures forall n :: i <= n < i + 5 ==> IsWord(s[n])
  {
    forall n | i <= n < i + 5 ensures IsWord(s[n]) {
      assert s[n] == s[i..i + 5][n - i];
    }
  }

  lemma LimitIff(t: string)
    ensures HasLimit(t) <==> NamesLimit(t)
  {
    forall i, j, k ensures 0 <= i < j < k <= |t| && LimitAt(Lower(t), i, j, k) <==> LimitsAt(t, i, j, k) {
      LimitAtIff(t, i, j, k);
    }
    if HasLimit(t) {
      var i, j, k :| 0 <= i < j < k <= |t| && LimitAt(Lower(t), i, j, k);
      assert LimitsAt(t, i, j, k);
    }
    if NamesLimit(t) {
      var i, j, k :| 0 <= i < j < k <= |t| && LimitsAt(t, i, j, k);
      assert LimitAt(Lower(t), i, j, k);
    }
  }

  lemma LowerBoundary(t: string, i: int)
    ensures Boundary(Lower(t), i) <==> Boundary(t, i)
  {
    LowerChars(t);
  }

  lemma SpelledLower(t: string, name: string, i: int)
    ensures OccursAt(Lower(t), Lower(name), i) <==> SpelledAt(t, name, i)
  {
    if 0 <= i <= |t| - |name| {
      assert Lower(t)[i..i + |name|] == Lower(t[i..i + |name|]);
      LowerIff(t[i..i + |name|], name);
    }
  }

  lemma NamedAtIff(t: string, name: string, i: int)
    ensures 0 <= i <= |t| - |name| && WordAt(Lower(t), Lower(name), i) <==> NamedAt(t, name, i)
  {
    SpelledLower(t, name, i);
    LowerBoundary(t, i);
    LowerBoundary(t, i + |name|);
  }

  lemma NameIff(t: string, name: string)
    ensures MatchesWord(Lower(t), Lower(name)) <==> Names(t, name)
  {
    if MatchesWord(Lower(t), Lower(name)) {
      var i :| 0 <= i <= |t| - |name| && WordAt(Lower(t), Lower(name), i);
      NamedAtIff(t, name, i);
    }
    if Names(t, name) {
      var i :| 0 <= i <= |t| && NamedAt(t, name, i);
      NamedAtIff(t, name, i);
      assert WordAt(Lower(t), Lower(name), i);
    }
  }

  lemma TableIff(p: Policy, t: string)
    ensures Blocks(p, Lower(t)) <==> !NoBlockedTable(p.blockedTables, t)
  {
    if Blocks(p, Lower(t)) {
      var k :| 0 <= k < |p.blockedTables|
        && TableName(p.blockedTables[k]) != "" && MatchesWord(Lower(t), TableName(p.blockedTables[k]));
      NameIff(t, TrimSpace(p.blockedTables[k]));
      assert p.blockedTables[k] in p.blockedTables;
    }
    if !NoBlockedTable(p.blockedTables, t) {
      var table :| table in p.blockedTables && TrimSpace(table) != "" && Names(t, TrimSpace(table));
      NameIff(t, TrimSpace(table));
      var k :| 0 <= k < |p.blockedTables| && p.blockedTables[k] == table;
      assert TableName(p.blockedTables[k]) != "" && MatchesWord(Lower(t), TableName(p.blockedTables[k]));
    }
  }

  lemma {:induction false} LowerWordLength(s: string)
    ensures WordLength(Lower(s)) == WordLength(s)
  {
    if s != "" && IsWord(s[0]) {
      assert Lower(s)[1..] == Lower(s[1..]);
      LowerWordLength(s[1..]);
    }
  }

  /** Lower-casing a text lower-cases its words. */
  lemma {:induction false} LowerWords(s: string)
    ensures |Words(Lower(s))| == |Words(s)|
    ensures forall i :: 0 <= i < |Words(s)| ==> Words(Lower(s))[i] == Lower(Words(s)[i])
    decreases |s|
  {
    if s != "" {
      if IsWord(s[0]) {
        var n := WordLength(s);
        LowerWordLength(s);
        LowerWords(s[n..]);
        assert Lower(s)[n..] == Lower(s[n..]) && Lower(s)[..n] == Lower(s[..n]);
      } else {
        LowerWords(s[1..]);
        assert Lower(s)[1..] == Lower(s[1..]);
      }
    }
  }

  lemma KeywordIff(t: string)
    ensures Dangerous(t) <==> !NoKeyword(t)
  {
    DangerousIffListed(t);
    LowerWords(t);
    var ws, ls := Words(t), Words(Lower(t));
    forall i, k | 0 <= i < |ws| && 0 <= k < |KEYWORDS| ensures ls[i] == KEYWORDS[k] <==> SameText(ws[i], KEYWORDS[k]) {
      LowerIs(ws[i], KEYWORDS[k]);
    }
    if Dangerous(t) {
      var k :| 0 <= k < |KEYWORDS| && KEYWORDS[k] in ls;
      var i :| 0 <= i < |ls| && ls[i] == KEYWORDS[k];
      assert ws[i] in ws && SameText(ws[i], KEYWORDS[k]);
    }
    if !NoKeyword(t) {
      var w, k :| w in ws && 0 <= k < |KEYWORDS| && SameText(w, KEYWORDS[k]);
      var i :| 0 <= i < |ws| && ws[i] == w;
      assert ls[i] == KEYWORDS[k];
    }
  }

  lemma RulesOf(p: Policy, t: string)
    requires TrimSpace(t) == t
    ensures var f := Inspect(p, t);
      && (f.comment <==> !NoComment(t))
      && (f.multiple <==> !OneStatement(t))
      && (f.dangerous <==> !NoKeyword(t))
      && (f.startsSelect <==> BeginsWithSelect(t))
      && (f.startsWith <==> BeginsWithWith(t))
      && (f.hasSelect <==> NamesSelect(t))
      && (f.blocked <==> !NoBlockedTable(p.blockedTables, t))
      && (f.hasLimit <==> NamesLimit(t))
  {
    CommentIff(t);
    StatementIff(t);
    KeywordIff(t);
    SelectIff(t);
    TableIff(p, t);
    LimitIff(t);
  }

  // ---------- the verdict ----------

  /** A query is accepted exactly if it is safe. */
  lemma AcceptedIff(p: Policy, toolName: string, q: string)
    ensures CheckSQL(p, toolName, Some(q)) == None <==> IsSafe(p, q)
  {
    TrimIdempotent(q);
    RulesOf(p, TrimSpace(q));
  }

  /** Each reason is given exactly if its own test fails and those before it pass. */
  lemma RefusedIff(p: Policy, toolName: string, q: string)
    ensures var r := CheckSQL(p, toolName, Some(q)); var t := TrimSpace(q);
      var plain := t != "" && NoComment(t);
      var single := plain && OneStatement(t);
      var harmless := single && NoKeyword(t);
      var query := harmless && (BeginsWithSelect(t) || (BeginsWithWith(t) && NamesSelect(t)));
      var open := query && NoBlockedTable(p.blockedTables, t);
      && (r == Some(SqlRequired) <==> t == "")
      && (r == Some(CommentsNotAllowed) <==> t != "" && !NoComment(t))
      && (r == Some(MultipleStatements) <==> plain && !OneStatement(t))
      && (r == Some(DangerousStatement) <==> single && !NoKeyword(t))
      && (r == Some(OnlySelect) <==> harmless && !BeginsWithSelect(t) && !BeginsWithWith(t))
      && (r == Some(CteWithoutSelect) <==> harmless && BeginsWithWith(t) && !NamesSelect(t))
      && (r == Some(BlockedTable) <==> query && !NoBlockedTable(p.blockedTables, t))
      && (r == Some(LimitRequired) <==> open && p.requireLimit && !NamesLimit(t))
  {
    TrimIdempotent(q);
    RulesOf(p, TrimSpace(q));
    SelectAndWith(TrimSpace(q));
  }

  /** A text that begins with "with" does not begin with "select". */
  lemma SelectAndWith(t: string)
    ensures !(BeginsWithSelect(t) && BeginsWithWith(t))
  {
    if BeginsWithSelect(t) {
      assert SameLetter(t[..6][0], 's') && t[..6][0] == t[0];
    }
    if |t| >= 4 {
      assert t[..4][0] == t[0];
    }
  }

  /** Without a query only the SQL tool itself is refused. */
  lemma WithoutQuery(p: Policy, toolName: string)
    ensures CheckSQL(p, toolName, None) == if toolName == "query_mysql_readonly" then Some(SqlRequired) else None
  {}
}
