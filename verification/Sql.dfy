/** The SQL policy, which checks a query (internal/policy/policy.go:130-165), and the MySQL store, which
    rewrites the query it was allowed to run (internal/repository/mysql.go:215-224).  ASCII text. */
module Sql {
  import opened Wrappers
  import opened Text

  // ---------- words ----------

  /** \w */
  predicate IsWord(c: char) {
    '0' <= c <= '9' || 'A' <= c <= 'Z' || 'a' <= c <= 'z' || c == '_'
  }

  predicate AllWord(s: string) {
    forall i :: 0 <= i < |s| ==> IsWord(s[i])
  }

  /** \b */
  predicate Boundary(s: string, i: int) {
    (0 < i <= |s| && IsWord(s[i - 1])) != (0 <= i < |s| && IsWord(s[i]))
  }

  predicate WordAt(s: string, w: string, i: int) {
    OccursAt(s, w, i) && Boundary(s, i) && Boundary(s, i + |w|)
  }

  /** The regular expression \bw\b matches somewhere in `s`. */
  predicate MatchesWord(s: string, w: string) {
    exists i :: 0 <= i <= |s| - |w| && WordAt(s, w, i)
  }

  const KEYWORDS: seq<string> :=
    ["insert", "update", "delete", "drop", "alter", "truncate",
     "create", "replace", "grant", "revoke", "call", "exec"]

  /** dangerousSQL: (?i)\b(insert|...|exec)\b */
  predicate Dangerous(s: string) {
    exists k :: 0 <= k < |KEYWORDS| && MatchesWord(Lower(s), KEYWORDS[k])
  }

  /** \s of a regular expression: no vertical tab, unlike unicode.IsSpace. */
  predicate IsRegexSpace(c: char) {
    c == '\t' || c == '\n' || c as int == 12 || c == '\r' || c == ' '
  }

  predicate LimitAt(s: string, i: int, j: int, k: int) {
    && OccursAt(s, "limit", i) && Boundary(s, i)
    && i + 5 < j < k <= |s|
    && (forall n :: i + 5 <= n < j ==> IsRegexSpace(s[n]))
    && (forall n :: j <= n < k ==> '0' <= s[n] <= '9')
    && Boundary(s, k)
  }

  /** (?i)\blimit\s+\d+\b */
  predicate HasLimit(s: string) {
    exists i, j, k | 0 <= i < j < k <= |s| :: LimitAt(Lower(s), i, j, k)
  }

  // ---------- the policy ----------

  datatype Policy = Policy(blockedTables: seq<string>, requireLimit: bool)

  datatype Rejection =
    | SqlRequired
    | CommentsNotAllowed
    | MultipleStatements
    | DangerousStatement
    | OnlySelect
    | CteWithoutSelect
    | BlockedTable
    | LimitRequired

  /** strings.TrimRight(s, ";") */
  function TrimSemicolons(s: string): string {
    if s != "" && s[|s| - 1] == ';' then TrimSemicolons(s[..|s| - 1]) else s
  }

  function TableName(table: string): string {
    Lower(TrimSpace(table))
  }

  predicate Blocks(p: Policy, lower: string) {
    exists k :: 0 <= k < |p.blockedTables|
      && TableName(p.blockedTables[k]) != "" && MatchesWord(lower, TableName(p.blockedTables[k]))
  }

  predicate HasComment(lower: string) {
    Contains(lower, "--") || Contains(lower, "/*") || Contains(lower, "#")
  }

  /** What the tests of checkSQL find in a trimmed text. */
  datatype Findings = Findings(
    comment: bool,
    multiple: bool,
    dangerous: bool,
    startsSelect: bool,
    startsWith: bool,
    hasSelect: bool,
    blocked: bool,
    hasLimit: bool)

  function Inspect(p: Policy, sqlText: string): Findings {
    var lower := Lower(sqlText);
    Findings(
      HasComment(lower),
      Contains(TrimSemicolons(TrimSpace(sqlText)), ";"),
      Dangerous(sqlText),
      "select" <= lower,
      "with" <= lower,
      Contains(lower, "select"),
      Blocks(p, lower),
      HasLimit(sqlText))
  }

  /** The first test that fails, in checkSQL's order. */
  function Verdict(requireLimit: bool, f: Findings): Option<Rejection> {
    if f.comment then Some(CommentsNotAllowed)
    else if f.multiple then Some(MultipleStatements)
    else if f.dangerous then Some(DangerousStatement)
    else if !(f.startsSelect || f.startsWith) then Some(OnlySelect)
    else if f.startsWith && !f.hasSelect then Some(CteWithoutSelect)
    else if f.blocked then Some(BlockedTable)
    else if requireLimit && !f.hasLimit then Some(LimitRequired)
    else None
  }

  /** checkSQL: None accepts.  `raw` is the request's "sql" field, None when it is absent or no string. */
  function CheckSQL(p: Policy, toolName: string, raw: Option<string>): Option<Rejection> {
    if raw.None? && toolName != "query_mysql_readonly" then None
    else if raw.None? || TrimSpace(raw.value) == "" then Some(SqlRequired)
    else Verdict(p.requireLimit, Inspect(p, TrimSpace(raw.value)))
  }

  // ---------- the rewriter ----------

  function MaxRows(maxRows: int): nat {
    if maxRows <= 0 then 100 else maxRows
  }

  function EnforceLimit(q: string, maxRows: int): string {
    if Contains(Lower(q), " limit ") then q
    else TrimSemicolons(TrimSpace(q)) + " LIMIT " + Decimal(MaxRows(maxRows))
  }

  // ---------- matching in an extended text ----------

  lemma LowerConcat(a: string, b: string)
    ensures Lower(a + b) == Lower(a) + Lower(b)
  {}

  lemma ContainsExtends(s: string, suffix: string, sub: string)
    requires Contains(s, sub)
    ensures Contains(s + suffix, sub)
  {
    var i :| 0 <= i <= |s| - |sub| && OccursAt(s, sub, i);
    assert (s + suffix)[i..i + |sub|] == s[i..i + |sub|];
    assert OccursAt(s + suffix, sub, i);
  }

  /** A text none of whose characters occurs in the suffix is only found before the suffix. */
  lemma NoNewOccurrence(s: string, suffix: string, sub: string)
    requires sub != "" && forall c :: c in sub ==> c !in suffix
    requires Contains(s + suffix, sub)
    ensures Contains(s, sub)
  {
    var t := s + suffix;
    var i :| 0 <= i <= |t| - |sub| && OccursAt(t, sub, i);
    assert sub[|sub| - 1] == t[i + |sub| - 1];
    assert forall n :: |s| <= n < |t| ==> t[n] in suffix;
    assert sub[|sub| - 1] in sub;
    assert s[i..i + |sub|] == t[i..i + |sub|];
    assert OccursAt(s, sub, i);
  }

  lemma MatchExtends(s: string, suffix: string, w: string)
    requires suffix != "" ==> !IsWord(suffix[0])
    requires MatchesWord(s, w)
    ensures MatchesWord(s + suffix, w)
  {
    var i :| 0 <= i <= |s| - |w| && WordAt(s, w, i);
    assert (s + suffix)[i..i + |w|] == s[i..i + |w|];
    assert WordAt(s + suffix, w, i);
  }

  /** A word without a space that is neither "limit" nor the number is found in `s + " limit " + number`
      only if it is found in `s`. */
  lemma NoNewWord(s: string, number: string, w: string)
    requires w != "" && ' ' !in w && w != "limit" && w != number
    requires AllWord(number) && number != ""
    requires MatchesWord(s + " limit " + number, w)
    ensures MatchesWord(s, w)
  {
    var t := s + " limit " + number;
    var i :| 0 <= i <= |t| - |w| && WordAt(t, w, i);
    NoSpaceInMatch(t, w, i);
    SuffixParts(s, number);
    if i < |s| {
      MatchBefore(s, t, w, i);
    } else if i < |s| + 6 {
      NoWordInside(t, |s| + 1, |s| + 6, i, i + |w|);
      assert false;
    } else {
      NoWordInside(t, |s| + 7, |t|, i, i + |w|);
      assert false;
    }
  }

  lemma NoSpaceInMatch(t: string, w: string, i: int)
    requires OccursAt(t, w, i) && ' ' !in w
    ensures forall n :: i <= n < i + |w| ==> t[n] != ' '
  {
    assert forall n :: i <= n < i + |w| ==> t[n] == w[n - i];
  }

  lemma SuffixParts(s: string, number: string)
    ensures var t := s + " limit " + number;
      && s <= t && |t| == |s| + 7 + |number|
      && t[|s|] == ' ' && t[|s| + 6] == ' '
      && t[|s| + 1..|s| + 6] == "limit" && t[|s| + 7..|t|] == number
      && (forall n :: |s| + 1 <= n < |s| + 6 ==> IsWord(t[n]))
      && (forall n :: |s| + 7 <= n < |t| ==> t[n] == number[n - |s| - 7])
  {}

  lemma MatchBefore(s: string, t: string, w: string, i: int)
    requires s <= t && |s| < |t| && t[|s|] == ' ' && 0 <= i < |s|
    requires WordAt(t, w, i) && forall n :: i <= n < i + |w| ==> t[n] != ' '
    ensures MatchesWord(s, w)
  {
    assert i + |w| <= |s|;
    assert s[i..i + |w|] == t[i..i + |w|];
    assert WordAt(s, w, i);
  }

  /** A match inside a run of word characters is the whole run. */
  lemma NoWordInside(t: string, from: int, to: int, i: int, end: int)
    requires 0 < from < to <= |t| && forall n :: from <= n < to ==> IsWord(t[n])
    requires t[from - 1] == ' ' && (to < |t| ==> t[to] == ' ')
    requires from - 1 <= i < end <= |t| && i < to
    requires forall n :: i <= n < end ==> t[n] != ' '
    requires Boundary(t, i) && Boundary(t, end)
    ensures i == from && end == to
  {
    assert i != from - 1;
    assert end <= to;
    assert forall n :: from < n < to ==> !Boundary(t, n);
  }

  // ---------- the policy is closed under the rewriting ----------

  /** A text, cut into what the rewriter keeps and the semicolons it drops. */
  lemma {:induction false} Kept(t: string) returns (semicolons: string)
    ensures t == TrimSemicolons(t) + semicolons
    ensures forall i :: 0 <= i < |semicolons| ==> semicolons[i] == ';'
  {
    semicolons := "";
    if t != "" && t[|t| - 1] == ';' {
      semicolons := Kept(t[..|t| - 1]);
      semicolons := semicolons + ";";
    }
  }

  lemma LowerOfKept(base: string, semicolons: string)
    requires forall i :: 0 <= i < |semicolons| ==> semicolons[i] == ';'
    ensures Lower(base + semicolons) == Lower(base) + semicolons
  {
    LowerConcat(base, semicolons);
    assert Lower(semicolons) == semicolons;
  }

  function Suffix(maxRows: int): string {
    " limit " + Decimal(MaxRows(maxRows))
  }

  lemma LowerOfRewritten(base: string, maxRows: int)
    ensures Lower(base + " LIMIT " + Decimal(MaxRows(maxRows))) == Lower(base) + Suffix(maxRows)
  {
    var number := Decimal(MaxRows(maxRows));
    LowerConcat(base + " LIMIT ", number);
    LowerConcat(base, " LIMIT ");
    assert Lower(" LIMIT ") == " limit ";
    assert Lower(number) == number;
    assert Lower(base) + " limit " + number == Lower(base) + (" limit " + number);
  }

  lemma RewrittenIsTrimmed(base: string, number: string)
    requires base != "" && !IsSpace(base[0])
    requires number != "" && forall i :: 0 <= i < |number| ==> '0' <= number[i] <= '9'
    ensures var q' := base + " LIMIT " + number; TrimSpace(q') == q' && TrimSemicolons(q') == q'
  {
    var q' := base + " LIMIT " + number;
    assert q'[0] == base[0];
    assert q'[|q'| - 1] == number[|number| - 1];
    TrimmedIsFixed(q');
  }

  lemma EndsInLimit(s: string, number: string)
    requires number != "" && forall i :: 0 <= i < |number| ==> '0' <= number[i] <= '9'
    ensures var t := s + " limit " + number;
      LimitAt(t, |s| + 1, |s| + 7, |t|) && Contains(t, " limit ")
  {
    var t := s + " limit " + number;
    var i := |s|;
    assert t[i..i + 7] == " limit " && t[i + 1..i + 6] == "limit";
    assert OccursAt(t, " limit ", i);
    assert forall n :: i + 7 <= n < |t| ==> t[n] == number[n - i - 7];
    assert t[i] == ' ' && t[i + 1] == 'l' && t[i + 6] == ' ';
  }

  lemma RewrittenHasLimit(base: string, maxRows: int, q': string)
    requires Lower(q') == Lower(base) + Suffix(maxRows)
    ensures HasLimit(q') && Contains(Lower(q'), " limit ")
  {
    EndsInLimit(Lower(base), Decimal(MaxRows(maxRows)));
    assert Lower(q') == Lower(base) + " limit " + Decimal(MaxRows(maxRows));
  }

  /** The rewriting brings in no comment, no second statement and no dangerous word. */
  lemma NoNewComment(base: string, semicolons: string, maxRows: int, sub: string)
    requires sub == "--" || sub == "/*" || sub == "#"
    requires Contains(Lower(base) + Suffix(maxRows), sub)
    ensures Contains(Lower(base) + semicolons, sub)
  {
    NoNewOccurrence(Lower(base), Suffix(maxRows), sub);
    ContainsExtends(Lower(base), semicolons, sub);
  }

  lemma NoNewStatement(base: string, number: string)
    requires forall i :: 0 <= i < |number| ==> '0' <= number[i] <= '9'
    requires Contains(base + " LIMIT " + number, ";")
    ensures Contains(base, ";")
  {
    assert base + " LIMIT " + number == base + (" LIMIT " + number);
    NoNewOccurrence(base, " LIMIT " + number, ";");
  }

  lemma NoNewDanger(base: string, semicolons: string, maxRows: int, q: string, q': string)
    requires Lower(q) == Lower(base) + semicolons && Lower(q') == Lower(base) + Suffix(maxRows)
    requires semicolons != "" ==> !IsWord(semicolons[0])
    requires Dangerous(q')
    ensures Dangerous(q)
  {
    var k :| 0 <= k < |KEYWORDS| && MatchesWord(Lower(q'), KEYWORDS[k]);
    KeywordIsNew(KEYWORDS[k], k, Decimal(MaxRows(maxRows)));
    assert Lower(base) + Suffix(maxRows) == Lower(base) + " limit " + Decimal(MaxRows(maxRows));
    NoNewWord(Lower(base), Decimal(MaxRows(maxRows)), KEYWORDS[k]);
    MatchExtends(Lower(base), semicolons, KEYWORDS[k]);
  }

  lemma KeywordIsNew(w: string, k: int, number: string)
    requires 0 <= k < |KEYWORDS| && w == KEYWORDS[k]
    requires number != "" && forall i :: 0 <= i < |number| ==> '0' <= number[i] <= '9'
    ensures w != "" && ' ' !in w && w != "limit" && w != number
  {
    assert !('0' <= w[0] <= '9');
    assert w[0] != 'l';
  }

  /** Blocked table names without a space, as single words are. */
  predicate SpaceFree(p: Policy) {
    forall k :: 0 <= k < |p.blockedTables| ==> ' ' !in TableName(p.blockedTables[k])
  }

  /** The words a rewriting adds. */
  predicate BlocksSuffix(p: Policy, maxRows: int) {
    exists k :: 0 <= k < |p.blockedTables|
      && (TableName(p.blockedTables[k]) == "limit"
          || TableName(p.blockedTables[k]) == Decimal(MaxRows(maxRows)))
  }

  lemma SuffixMatches(s: string, number: string)
    requires number != "" && AllWord(number)
    ensures var t := s + " limit " + number; MatchesWord(t, "limit") && MatchesWord(t, number)
  {
    var t := s + " limit " + number;
    var n := |s|;
    assert t[n] == ' ' && t[n + 1] == 'l' && t[n + 5] == 't' && t[n + 6] == ' ';
    assert t[n + 1..n + 6] == "limit" && t[n + 7..n + 7 + |number|] == number;
    assert t[n + 7] == number[0] && t[|t| - 1] == number[|number| - 1];
    assert WordAt(t, "limit", n + 1) && WordAt(t, number, n + 7);
  }

  lemma RewrittenBlocked(p: Policy, maxRows: int, s: string, semicolons: string)
    requires SpaceFree(p)
    requires semicolons != "" ==> !IsWord(semicolons[0])
    requires !Blocks(p, s + semicolons)
    ensures Blocks(p, s + Suffix(maxRows)) <==> BlocksSuffix(p, maxRows)
  {
    var number := Decimal(MaxRows(maxRows));
    var t := s + " limit " + number;
    assert t == s + Suffix(maxRows);
    SuffixMatches(s, number);
    if BlocksSuffix(p, maxRows) {
      var k :| 0 <= k < |p.blockedTables|
        && (TableName(p.blockedTables[k]) == "limit" || TableName(p.blockedTables[k]) == number);
      assert MatchesWord(t, TableName(p.blockedTables[k]));
    } else {
      forall k | 0 <= k < |p.blockedTables| && TableName(p.blockedTables[k]) != ""
        ensures !MatchesWord(t, TableName(p.blockedTables[k]))
      {
        var w := TableName(p.blockedTables[k]);
        if MatchesWord(t, w) {
          NoNewWord(s, number, w);
          MatchExtends(s, semicolons, w);
          assert false;
        }
      }
    }
  }

  lemma PrefixIsKept(s: string, semicolons: string, w: string)
    requires w <= s + semicolons && forall i :: 0 <= i < |w| ==> w[i] != ';'
    requires forall i :: 0 <= i < |semicolons| ==> semicolons[i] == ';'
    ensures w <= s
  {
    assert forall i :: 0 <= i < |w| ==> w[i] == (s + semicolons)[i];
    assert |s| < |s + semicolons| ==> (s + semicolons)[|s|] == ';';
  }

  predicate ReadOnly(lower: string) {
    ("select" <= lower || "with" <= lower) && ("with" <= lower ==> Contains(lower, "select"))
  }

  lemma ReadOnlyIsKept(base: string, semicolons: string, suffix: string)
    requires ReadOnly(Lower(base) + semicolons)
    requires forall i :: 0 <= i < |semicolons| ==> semicolons[i] == ';'
    ensures ReadOnly(Lower(base) + suffix) && base != "" && !IsSpace(base[0])
  {
    var s := Lower(base);
    if "select" <= s + semicolons {
      PrefixIsKept(s, semicolons, "select");
    } else {
      PrefixIsKept(s, semicolons, "with");
      NoNewOccurrence(s, semicolons, "select");
      ContainsExtends(s, suffix, "select");
    }
  }

  lemma RewrittenIsSafe(base: string, semicolons: string, maxRows: int, t: string, q': string)
    requires Lower(t) == Lower(base) + semicolons && Lower(q') == Lower(base) + Suffix(maxRows)
    requires semicolons != "" ==> !IsWord(semicolons[0])
    requires q' == base + " LIMIT " + Decimal(MaxRows(maxRows))
    requires !HasComment(Lower(t)) && !Contains(base, ";") && !Dangerous(t)
    ensures !HasComment(Lower(q')) && !Contains(q', ";") && !Dangerous(q')
  {
    if Contains(q', ";") {
      NoNewStatement(base, Decimal(MaxRows(maxRows)));
    }
    if Dangerous(q') {
      NoNewDanger(base, semicolons, maxRows, t, q');
    }
    forall sub | sub in {"--", "/*", "#"} ensures !Contains(Lower(q'), sub) {
      if Contains(Lower(q'), sub) {
        NoNewComment(base, semicolons, maxRows, sub);
      }
    }
  }

  /** The rewritten text passes all tests but perhaps that of the blocked tables. */
  lemma RewrittenInspected(t: string, maxRows: int)
    requires TrimSpace(t) == t
    requires !HasComment(Lower(t)) && !Contains(TrimSemicolons(t), ";") && !Dangerous(t)
    requires ReadOnly(Lower(t))
    ensures var q' := TrimSemicolons(t) + " LIMIT " + Decimal(MaxRows(maxRows));
      && TrimSpace(q') == q' && TrimSemicolons(q') == q'
      && !HasComment(Lower(q')) && !Contains(q', ";") && !Dangerous(q')
      && ReadOnly(Lower(q')) && HasLimit(q')
  {
    var base := TrimSemicolons(t);
    var q' := base + " LIMIT " + Decimal(MaxRows(maxRows));
    var semicolons := Kept(t);
    LowerOfKept(base, semicolons);
    LowerOfRewritten(base, maxRows);
    ReadOnlyIsKept(base, semicolons, Suffix(maxRows));
    RewrittenIsTrimmed(base, Decimal(MaxRows(maxRows)));
    RewrittenHasLimit(base, maxRows, q');
    RewrittenIsSafe(base, semicolons, maxRows, t, q');
  }

  lemma RewrittenBlocks(p: Policy, t: string, maxRows: int)
    requires SpaceFree(p) && !Blocks(p, Lower(t))
    ensures Blocks(p, Lower(TrimSemicolons(t) + " LIMIT " + Decimal(MaxRows(maxRows)))) <==> BlocksSuffix(p, maxRows)
  {
    var base := TrimSemicolons(t);
    var semicolons := Kept(t);
    LowerOfKept(base, semicolons);
    LowerOfRewritten(base, maxRows);
    RewrittenBlocked(p, maxRows, Lower(base), semicolons);
  }

  /** For any blocked tables, a query the policy accepts can be refused after the rewriting on one ground
      only: the text then names a blocked table. */
  lemma RefusedOnlyForTables(p: Policy, toolName: string, q: string, maxRows: int)
    requires CheckSQL(p, toolName, Some(q)) == None
    ensures var q' := EnforceLimit(q, maxRows);
      CheckSQL(p, toolName, Some(q')) == if Blocks(p, Lower(TrimSpace(q'))) then Some(BlockedTable) else None
  {
    if !Contains(Lower(q), " limit ") {
      TrimIdempotent(q);
      RewrittenInspected(TrimSpace(q), maxRows);
    }
  }

  /** A query the policy accepts is still accepted after the rewriting, unless a blocked table is called
      like one of the two words the rewriting adds. */
  lemma RewritingStaysAllowed(p: Policy, toolName: string, q: string, maxRows: int)
    requires SpaceFree(p) && CheckSQL(p, toolName, Some(q)) == None
    ensures CheckSQL(p, toolName, Some(EnforceLimit(q, maxRows))) == None
       <==> Contains(Lower(q), " limit ") || !BlocksSuffix(p, maxRows)
  {
    RefusedOnlyForTables(p, toolName, q, maxRows);
    if !Contains(Lower(q), " limit ") {
      TrimIdempotent(q);
      RewrittenInspected(TrimSpace(q), maxRows);
      RewrittenBlocks(p, TrimSpace(q), maxRows);
    }
  }

  /** The number a string of digits stands for. */
  function ReadDecimal(s: string): nat
    requires forall i :: 0 <= i < |s| ==> '0' <= s[i] <= '9'
  {
    if s == "" then 0 else 10 * ReadDecimal(s[..|s| - 1]) + (s[|s| - 1] as int - '0' as int)
  }

  lemma {:induction false} DecimalReads(n: nat)
    ensures ReadDecimal(Decimal(n)) == n
    ensures Decimal(n)[0] == '0' ==> n == 0
  {
    var s := Decimal(n);
    if n >= 10 {
      DecimalReads(n / 10);
      assert s[..|s| - 1] == Decimal(n / 10);
      assert s[0] == Decimal(n / 10)[0];
    } else {
      assert s[..|s| - 1] == "";
    }
  }

  /** What the rewriter appends to a query it does not leave alone: the trimmed text without its last
      semicolons gets a LIMIT, of the row limit asked for, or of 100 if that is no positive number. */
  lemma RewrittenText(q: string, maxRows: int) returns (base: string, semicolons: string, digits: string)
    requires !Contains(Lower(q), " limit ")
    ensures EnforceLimit(q, maxRows) == base + " LIMIT " + digits
    ensures TrimSpace(q) == base + semicolons && (forall i :: 0 <= i < |semicolons| ==> semicolons[i] == ';')
    ensures base != "" ==> base[|base| - 1] != ';'
    ensures (forall i :: 0 <= i < |digits| ==> '0' <= digits[i] <= '9')
    ensures ReadDecimal(digits) == if maxRows > 0 then maxRows else 100
  {
    base, digits := TrimSemicolons(TrimSpace(q)), Decimal(MaxRows(maxRows));
    semicolons := Kept(TrimSpace(q));
    EndsWithout(TrimSpace(q));
    DecimalReads(MaxRows(maxRows));
  }

  lemma {:induction false} EndsWithout(t: string)
    ensures var base := TrimSemicolons(t); base != "" ==> base[|base| - 1] != ';'
  {
    if t != "" && t[|t| - 1] == ';' {
      EndsWithout(t[..|t| - 1]);
    }
  }

  lemma RewritingIsIdempotent(q: string, maxRows: int, maxRows': int)
    ensures EnforceLimit(EnforceLimit(q, maxRows), maxRows') == EnforceLimit(q, maxRows)
  {
    if !Contains(Lower(q), " limit ") {
      var base := TrimSemicolons(TrimSpace(q));
      LowerOfRewritten(base, maxRows);
      RewrittenHasLimit(base, maxRows, EnforceLimit(q, maxRows));
    }
  }

  /** The rewriter leaves a query as it is exactly when it finds a limit between two spaces. */
  lemma UnchangedIff(q: string, maxRows: int)
    ensures EnforceLimit(q, maxRows) == q <==> Contains(Lower(q), " limit ")
  {
    if !Contains(Lower(q), " limit ") {
      var base := TrimSemicolons(TrimSpace(q));
      LowerOfRewritten(base, maxRows);
      RewrittenHasLimit(base, maxRows, EnforceLimit(q, maxRows));
    }
  }

  lemma MissingCharacter(s: string, w: string, k: nat)
    requires k < |w| && w[k] !in s
    ensures !Contains(s, w) && !MatchesWord(s, w)
  {
    forall i | 0 <= i <= |s| - |w| ensures !OccursAt(s, w, i) {
      assert s[i..i + |w|][k] == s[i + k];
    }
  }

  const TAB_LIMIT := "select 1 limit\t5"

  /** No keyword is spelled with the letters of this query. */
  lemma TabLimitIsSafe()
    ensures Lower(TAB_LIMIT) == TAB_LIMIT && !HasComment(TAB_LIMIT) && !Contains(TAB_LIMIT, ";")
    ensures !Dangerous(TAB_LIMIT)
  {
    var q := TAB_LIMIT;
    assert Lower(q) == q;
    MissingCharacter(q, "--", 0);
    MissingCharacter(q, "/*", 0);
    MissingCharacter(q, "#", 0);
    MissingCharacter(q, ";", 0);
    var odd := [1, 0, 0, 0, 0, 1, 1, 0, 0, 0, 1, 1];
    forall k | 0 <= k < |KEYWORDS| ensures !MatchesWord(q, KEYWORDS[k]) {
      MissingCharacter(q, KEYWORDS[k], odd[k]);
    }
  }

  lemma TabLimitHasLimit()
    ensures HasLimit(TAB_LIMIT) && !Contains(Lower(TAB_LIMIT), " limit ")
  {
    var q := TAB_LIMIT;
    assert Lower(q) == q;
    assert q[9..14] == "limit";
    assert LimitAt(q, 9, 15, 16);
    forall i | 0 <= i <= |q| - 7 ensures !OccursAt(q, " limit ", i) {
      assert q[i..i + 7][0] == q[i] && q[i..i + 7][6] == q[i + 6];
    }
  }

  /** The policy's own test for a limit accepts more than the rewriter's: here the rewriting adds a second
      limit to a query that is accepted for having one. */
  lemma SecondLimit(toolName: string, maxRows: int)
    ensures CheckSQL(Policy([], true), toolName, Some(TAB_LIMIT)) == None
    ensures EnforceLimit(TAB_LIMIT, maxRows) == TAB_LIMIT + " LIMIT " + Decimal(MaxRows(maxRows))
  {
    var q := TAB_LIMIT;
    TabLimitIsSafe();
    TabLimitHasLimit();
    assert q[..6] == "select";
    TrimmedIsFixed(q);
    assert TrimSemicolons(q) == q;
  }

  // ---------- the word search as one pass over the text ----------

  function WordLength(s: string): (n: nat)
    ensures n <= |s| && AllWord(s[..n]) && (n < |s| ==> !IsWord(s[n]))
  {
    if s != "" && IsWord(s[0]) then
      var n := WordLength(s[1..]);
      assert s[..n + 1] == [s[0]] + s[1..][..n];
      n + 1
    else 0
  }

  /** The maximal runs of word characters, left to right. */
  function Words(s: string): seq<string> {
    if s == "" then []
    else if !IsWord(s[0]) then Words(s[1..])
    else
      var n := WordLength(s);
      [s[..n]] + Words(s[n..])
  }

  lemma MatchInRest(s: string, n: int, w: string, i: int)
    requires 0 < n <= i <= |s| - |w| && (!IsWord(s[n - 1]) || n < i)
    ensures WordAt(s, w, i) <==> WordAt(s[n..], w, i - n)
  {
    assert s[n..][i - n..i - n + |w|] == s[i..i + |w|];
  }

  /** After `n` characters that hold no match of `w` but perhaps one at 0, the rest decides. */
  lemma MatchesInRest(s: string, n: int, w: string)
    requires w != "" && AllWord(w) && 0 < n <= |s| && (IsWord(s[n - 1]) ==> n == |s| || !IsWord(s[n]))
    requires forall i :: 0 < i < n && i <= |s| - |w| ==> !WordAt(s, w, i)
    ensures MatchesWord(s, w) <==> (|w| <= |s| && WordAt(s, w, 0)) || MatchesWord(s[n..], w)
  {
    forall i | n <= i <= |s| - |w|
      ensures WordAt(s, w, i) <==> WordAt(s[n..], w, i - n)
    {
      if IsWord(s[n - 1]) && i == n {
        assert s[n..][0..|w|][0] == s[n] == s[i..i + |w|][0];
        assert w[0] != s[n];
      } else {
        MatchInRest(s, n, w, i);
      }
    }
    if MatchesWord(s, w) && !(|w| <= |s| && WordAt(s, w, 0)) {
      var i :| 0 <= i <= |s| - |w| && WordAt(s, w, i);
      assert WordAt(s[n..], w, i - n);
    }
    if MatchesWord(s[n..], w) {
      var i :| 0 <= i <= |s[n..]| - |w| && WordAt(s[n..], w, i);
      assert WordAt(s, w, i + n);
    }
  }

  lemma MatchAtStart(s: string, n: nat, w: string)
    requires w != "" && AllWord(w) && n == WordLength(s) && 0 < n
    ensures forall i :: 0 < i < n && i <= |s| - |w| ==> !WordAt(s, w, i)
    ensures |w| <= |s| && WordAt(s, w, 0) <==> w == s[..n]
  {
    assert forall i :: 0 <= i < n ==> s[i] == s[..n][i];
    assert forall i :: 0 < i < n ==> !Boundary(s, i);
    if |w| <= |s| && OccursAt(s, w, 0) {
      assert forall i :: 0 <= i < |w| ==> s[i] == w[i];
    }
  }

  /** The expression \bw\b finds a word exactly where the one-pass scan lists it. */
  lemma {:induction false} MatchesIffListed(s: string, w: string)
    requires w != "" && AllWord(w)
    ensures MatchesWord(s, w) <==> w in Words(s)
    decreases |s|
  {
    if s == "" {
    } else if !IsWord(s[0]) {
      assert |w| <= |s| ==> s[0..|w|][0] == s[0];
      MatchesInRest(s, 1, w);
      MatchesIffListed(s[1..], w);
    } else {
      var n := WordLength(s);
      MatchAtStart(s, n, w);
      assert IsWord(s[n - 1]) by { assert s[..n][n - 1] == s[n - 1]; }
      MatchesInRest(s, n, w);
      MatchesIffListed(s[n..], w);
    }
  }

  lemma DangerousIffListed(s: string)
    ensures Dangerous(s) <==> exists k :: 0 <= k < |KEYWORDS| && KEYWORDS[k] in Words(Lower(s))
  {
    forall k | 0 <= k < |KEYWORDS|
      ensures MatchesWord(Lower(s), KEYWORDS[k]) <==> KEYWORDS[k] in Words(Lower(s))
    {
      assert AllWord(KEYWORDS[k]);
      MatchesIffListed(Lower(s), KEYWORDS[k]);
    }
  }
}
