/** strings.Split and strings.Join, as the chunker uses them (internal/rag/chunk.go:30-47). */
module Splitting {
  import opened Text

  /** The first place where `sep` occurs, or -1 (`IndexIsFirst`). */
  function Index(s: string, sep: string): (i: int)
    ensures i == -1 || OccursAt(s, sep, i)
  {
    if |s| < |sep| then -1
    else if s[..|sep|] == sep then 0
    else if s == "" then -1
    else
      var i := Index(s[1..], sep);
      if i == -1 then -1
      else
        assert s[i + 1..i + 1 + |sep|] == s[1..][i..i + |sep|];
        i + 1
  }

  function Split(s: string, sep: string): (parts: seq<string>)
    requires sep != ""
    ensures parts != []
    decreases |s|
  {
    var i := Index(s, sep);
    if i == -1 then [s] else [s[..i]] + Split(s[i + |sep|..], sep)
  }

  function Join(parts: seq<string>, sep: string): string {
    if parts == [] then ""
    else if |parts| == 1 then parts[0]
    else parts[0] + sep + Join(parts[1..], sep)
  }

  // ---------- the first occurrence ----------

  /** `sep` occurs at `i` and at no place before. */
  predicate FirstAt(s: string, sep: string, i: int) {
    OccursAt(s, sep, i) && forall j :: 0 <= j < i ==> !OccursAt(s, sep, j)
  }

  lemma OccursInTail(s: string, sep: string, j: int)
    requires 0 < j <= |s| - |sep|
    ensures OccursAt(s, sep, j) <==> OccursAt(s[1..], sep, j - 1)
  {
    var tail := s[1..];
    assert forall k :: 0 <= k < |tail| ==> tail[k] == s[k + 1];
    assert s[j..j + |sep|] == tail[j - 1..j - 1 + |sep|];
  }

  lemma {:induction false} IndexIsFirst(s: string, sep: string)
    ensures if Index(s, sep) == -1 then !Contains(s, sep) else FirstAt(s, sep, Index(s, sep))
  {
    if |sep| <= |s| && s[..|sep|] != sep && s != "" {
      IndexIsFirst(s[1..], sep);
      forall j | 0 < j <= |s| - |sep| ensures OccursAt(s, sep, j) <==> OccursAt(s[1..], sep, j - 1) {
        OccursInTail(s, sep, j);
      }
    }
  }

  /** Before the end of `part`, the separator does not occur in `part` and what follows it. */
  lemma FirstAfterPart(part: string, sep: string, rest: string)
    ensures FirstAt(part + sep + rest, sep, |part|) <==> FirstAt(part + sep, sep, |part|)
  {
    var whole := part + sep + rest;
    assert whole[|part|..|part| + |sep|] == sep && (part + sep)[|part|..|part| + |sep|] == sep;
    forall j | 0 <= j < |part| ensures OccursAt(whole, sep, j) <==> OccursAt(part + sep, sep, j) {
      assert whole[j..j + |sep|] == (part + sep)[j..j + |sep|];
    }
  }

  // ---------- what Split is ----------

  /** The parts are cut at the first occurrence each time: with its separator no part but the last has one
      before its end, and the last has none. */
  predicate CutAtFirst(parts: seq<string>, sep: string) {
    && parts != []
    && (forall k :: 0 <= k < |parts| - 1 ==> FirstAt(parts[k] + sep, sep, |parts[k]|))
    && !Contains(parts[|parts| - 1], sep)
  }

  lemma CutCons(part: string, parts: seq<string>, sep: string)
    requires parts != []
    ensures CutAtFirst([part] + parts, sep) <==> FirstAt(part + sep, sep, |part|) && CutAtFirst(parts, sep)
    ensures Join([part] + parts, sep) == part + sep + Join(parts, sep)
  {
    var all := [part] + parts;
    assert all[1..] == parts && all[|all| - 1] == parts[|parts| - 1];
    assert forall k :: 0 <= k < |parts| - 1 ==> all[k + 1] == parts[k];
    if CutAtFirst(all, sep) {
      assert FirstAt(all[0] + sep, sep, |all[0]|);
      forall k | 0 <= k < |parts| - 1 ensures FirstAt(parts[k] + sep, sep, |parts[k]|) {
        assert FirstAt(all[k + 1] + sep, sep, |all[k + 1]|);
      }
    }
  }

  lemma {:induction false} SplitIsCut(s: string, sep: string)
    requires sep != ""
    ensures CutAtFirst(Split(s, sep), sep) && Join(Split(s, sep), sep) == s
    decreases |s|
  {
    IndexIsFirst(s, sep);
    var i := Index(s, sep);
    if i != -1 {
      var rest := s[i + |sep|..];
      SplitIsCut(rest, sep);
      CutCons(s[..i], Split(rest, sep), sep);
      AroundFirst(s, sep, i);
    }
  }

  lemma AroundFirst(s: string, sep: string, i: int)
    requires FirstAt(s, sep, i)
    ensures s == s[..i] + sep + s[i + |sep|..] && FirstAt(s[..i] + sep, sep, i)
  {
    FirstAfterPart(s[..i], sep, s[i + |sep|..]);
  }

  lemma AfterFirst(part: string, sep: string, rest: string)
    ensures var s := part + sep + rest; s[..|part|] == part && s[|part| + |sep|..] == rest
  {}

  /** A text whose first separator stands after `part` is split there. */
  lemma SplitCons(part: string, sep: string, rest: string)
    requires sep != "" && FirstAt(part + sep + rest, sep, |part|)
    ensures Split(part + sep + rest, sep) == [part] + Split(rest, sep)
  {
    FirstIsUnique(part + sep + rest, sep, |part|);
    AfterFirst(part, sep, rest);
  }

  lemma SplitOne(s: string, sep: string)
    requires sep != "" && !Contains(s, sep)
    ensures Split(s, sep) == [s]
  {
    IndexIsFirst(s, sep);
    assert Index(s, sep) != -1 ==> OccursAt(s, sep, Index(s, sep));
  }

  lemma {:induction false} CutIsSplit(parts: seq<string>, sep: string)
    requires sep != "" && CutAtFirst(parts, sep)
    ensures Split(Join(parts, sep), sep) == parts
  {
    if |parts| == 1 {
      assert parts == [parts[0]];
      SplitOne(parts[0], sep);
    } else {
      var part, rest := parts[0], parts[1..];
      assert parts == [part] + rest;
      CutCons(part, rest, sep);
      FirstAfterPart(part, sep, Join(rest, sep));
      CutIsSplit(rest, sep);
      SplitCons(part, sep, Join(rest, sep));
    }
  }

  lemma FirstIsUnique(s: string, sep: string, i: int)
    requires FirstAt(s, sep, i)
    ensures Index(s, sep) == i
  {
    IndexIsFirst(s, sep);
  }

  /** Split, without its body: the parts that join to the text and are cut at the first occurrences. */
  lemma SplitIff(s: string, sep: string, parts: seq<string>)
    requires sep != ""
    ensures Split(s, sep) == parts <==> CutAtFirst(parts, sep) && Join(parts, sep) == s
  {
    SplitIsCut(s, sep);
    if CutAtFirst(parts, sep) && Join(parts, sep) == s {
      CutIsSplit(parts, sep);
    }
  }

  lemma ContainsInside(before: string, s: string, after: string, sub: string)
    requires Contains(s, sub)
    ensures Contains(before + s + after, sub)
  {
    var i :| 0 <= i <= |s| - |sub| && OccursAt(s, sub, i);
    var whole := before + s + after;
    assert whole[|before| + i..|before| + i + |sub|] == s[i..i + |sub|];
    assert OccursAt(whole, sub, |before| + i);
  }

  /** No part contains the separator. */
  lemma PartsHaveNone(s: string, sep: string)
    requires sep != ""
    ensures forall k :: 0 <= k < |Split(s, sep)| ==> !Contains(Split(s, sep)[k], sep)
  {
    SplitIsCut(s, sep);
    var parts := Split(s, sep);
    forall k | 0 <= k < |parts| ensures !Contains(parts[k], sep) {
      if k < |parts| - 1 {
        NoneInside(parts[k], sep);
      }
    }
  }

  lemma NoneInside(part: string, sep: string)
    requires sep != "" && FirstAt(part + sep, sep, |part|)
    ensures !Contains(part, sep)
  {
    forall j | 0 <= j <= |part| - |sep| ensures !OccursAt(part, sep, j) {
      assert !OccursAt(part + sep, sep, j);
      assert (part + sep)[j..j + |sep|] == part[j..j + |sep|];
    }
  }
}
