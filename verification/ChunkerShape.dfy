/** Where the chunker cuts a document (internal/rag/chunk.go:29-49): sections and paragraphs hold no place at
    which they should have been cut once more. */
module ChunkerShape {
  import opened Text
  import opened Splitting
  import opened Chunker

  // ---------- headings inside a text ----------

  /** From `i` on, the text begins with spaces of one line and a '#'. */
  predicate HeadsAt(s: string, i: int) {
    exists j :: 0 <= i <= j < |s| && s[j] == '#' && forall k :: i <= k < j ==> IsSpace(s[k]) && s[k] != '\n'
  }

  /** A line of the text after its first is a heading. */
  predicate HasInnerHeading(s: string) {
    exists i :: 0 <= i < |s| && s[i] == '\n' && HeadsAt(s, i + 1)
  }

  lemma HeadingIff(line: string)
    requires '\n' !in line
    ensures IsHeading(line) <==> HeadsAt(line, 0)
  {
    var before, after := TrimSplits(line);
    var t := TrimSpace(line);
    assert forall k :: 0 <= k < |before| ==> line[k] == before[k] && IsSpace(before[k]);
    assert forall k :: |before| + |t| <= k < |line| ==> line[k] == after[k - |before| - |t|] && IsSpace(line[k]);
    assert t != "" ==> line[|before|] == t[0] && !IsSpace(t[0]);
    assert !IsSpace('#');
    if HeadsAt(line, 0) {
      var j :| 0 <= j < |line| && line[j] == '#' && forall k :: 0 <= k < j ==> IsSpace(line[k]) && line[k] != '\n';
      assert j == |before|;
    }
  }

  lemma HeadsShifted(a: string, b: string, i: nat)
    ensures HeadsAt(a + b, |a| + i) <==> HeadsAt(b, i)
  {
    var s := a + b;
    assert forall k :: 0 <= k < |b| ==> s[|a| + k] == b[k];
    if HeadsAt(s, |a| + i) {
      var j :| |a| + i <= j < |s| && s[j] == '#' && forall k :: |a| + i <= k < j ==> IsSpace(s[k]) && s[k] != '\n';
      assert b[j - |a|] == '#';
      forall k | i <= k < j - |a| ensures IsSpace(b[k]) && b[k] != '\n' {
        assert s[|a| + k] == b[k];
      }
    }
    if HeadsAt(b, i) {
      var j :| i <= j < |b| && b[j] == '#' && forall k :: i <= k < j ==> IsSpace(b[k]) && b[k] != '\n';
      assert s[|a| + j] == '#';
      forall k | |a| + i <= k < |a| + j ensures IsSpace(s[k]) && s[k] != '\n' {
        assert s[k] == b[k - |a|];
      }
    }
  }

  /** A newline ends the line that may be a heading. */
  lemma HeadsInLine(line: string, rest: string)
    requires '\n' !in line
    ensures HeadsAt(line + "\n" + rest, 0) <==> HeadsAt(line, 0)
  {
    var s := line + "\n" + rest;
    assert s[|line|] == '\n' && forall k :: 0 <= k < |line| ==> s[k] == line[k];
    if HeadsAt(s, 0) {
      var j :| 0 <= j < |s| && s[j] == '#' && forall k :: 0 <= k < j ==> IsSpace(s[k]) && s[k] != '\n';
      assert j < |line|;
      assert line[j] == '#';
    }
    if HeadsAt(line, 0) {
      var j :| 0 <= j < |line| && line[j] == '#' && forall k :: 0 <= k < j ==> IsSpace(line[k]) && line[k] != '\n';
      assert s[j] == '#';
    }
  }

  lemma InnerOfCons(line: string, rest: string)
    requires '\n' !in line && HasInnerHeading(line + "\n" + rest)
    ensures HeadsAt(rest, 0) || HasInnerHeading(rest)
  {
    var head := line + "\n";
    var s := head + rest;
    assert forall k :: 0 <= k < |line| ==> s[k] == line[k];
    var i :| 0 <= i < |s| && s[i] == '\n' && HeadsAt(s, i + 1);
    assert i >= |line|;
    HeadsShifted(head, rest, i + 1 - |head|);
    if i > |line| {
      assert rest[i - |head|] == '\n' && HeadsAt(rest, i - |head| + 1);
    }
  }

  lemma InnerCons(line: string, rest: string)
    requires '\n' !in line
    ensures HasInnerHeading(line + "\n" + rest) <==> HeadsAt(rest, 0) || HasInnerHeading(rest)
  {
    var head := line + "\n";
    var s := head + rest;
    if HasInnerHeading(s) {
      InnerOfCons(line, rest);
    }
    if HasInnerHeading(rest) {
      InnerInside(head, rest, "");
      assert head + rest + "" == s;
    }
    if HeadsAt(rest, 0) {
      HeadsShifted(head, rest, 0);
      assert s[|line|] == '\n' && HeadsAt(s, |line| + 1);
    }
  }

  predicate OneLiners(lines: seq<string>) {
    forall k :: 0 <= k < |lines| ==> '\n' !in lines[k]
  }

  lemma HeadsOfJoin(lines: seq<string>)
    requires lines != [] && OneLiners(lines)
    ensures HeadsAt(Join(lines, "\n"), 0) <==> IsHeading(lines[0])
  {
    HeadingIff(lines[0]);
    if |lines| > 1 {
      HeadsInLine(lines[0], Join(lines[1..], "\n"));
    }
  }

  lemma NoInnerInLine(line: string)
    requires '\n' !in line
    ensures !HasInnerHeading(line)
  {}

  lemma {:induction false} InnerIff(lines: seq<string>)
    requires lines != [] && OneLiners(lines)
    ensures HasInnerHeading(Join(lines, "\n")) <==> exists k :: 1 <= k < |lines| && IsHeading(lines[k])
  {
    if |lines| == 1 {
      NoInnerInLine(lines[0]);
    } else {
      var rest := lines[1..];
      InnerIff(rest);
      HeadsOfJoin(rest);
      InnerCons(lines[0], Join(rest, "\n"));
      if exists k :: 1 <= k < |lines| && IsHeading(lines[k]) {
        var k :| 1 <= k < |lines| && IsHeading(lines[k]);
        assert rest[k - 1] == lines[k];
      }
      if exists k :: 1 <= k < |rest| && IsHeading(rest[k]) {
        var k :| 1 <= k < |rest| && IsHeading(rest[k]);
        assert lines[k + 1] == rest[k];
      }
      assert rest[0] == lines[1];
    }
  }

  lemma HeadsBefore(s: string, after: string, i: int)
    requires HeadsAt(s, i)
    ensures HeadsAt(s + after, i)
  {
    var j :| 0 <= i <= j < |s| && s[j] == '#' && forall k :: i <= k < j ==> IsSpace(s[k]) && s[k] != '\n';
    assert forall k :: 0 <= k < |s| ==> (s + after)[k] == s[k];
  }

  lemma InnerInside(before: string, s: string, after: string)
    requires HasInnerHeading(s)
    ensures HasInnerHeading(before + s + after)
  {
    var i :| 0 <= i < |s| && s[i] == '\n' && HeadsAt(s, i + 1);
    HeadsShifted(before, s, i + 1);
    HeadsBefore(before + s, after, |before| + i + 1);
    assert (before + s + after)[|before| + i] == '\n';
  }

  lemma TrimAddsNoHeading(s: string)
    ensures HasInnerHeading(TrimSpace(s)) ==> HasInnerHeading(s)
  {
    var before, after := TrimSplits(s);
    if HasInnerHeading(TrimSpace(s)) {
      InnerInside(before, TrimSpace(s), after);
    }
  }

  // ---------- sections and paragraphs ----------

  lemma NoNewline(line: string)
    requires !Contains(line, "\n")
    ensures '\n' !in line
  {
    forall i | 0 <= i < |line| ensures line[i] != '\n' {
      assert !OccursAt(line, "\n", i);
      assert line[i..i + 1] == [line[i]];
    }
  }

  /** No line of a text holds a newline. */
  lemma LinesAreOneLiners(content: string)
    ensures OneLiners(Split(content, "\n"))
  {
    PartsHaveNone(content, "\n");
    forall k | 0 <= k < |Split(content, "\n")| ensures '\n' !in Split(content, "\n")[k] {
      NoNewline(Split(content, "\n")[k]);
    }
  }

  lemma {:induction false} DropEmptyKeeps(parts: seq<string>, part: string)
    requires part in DropEmpty(parts)
    ensures part in parts && part != ""
  {
    var init := parts[..|parts| - 1];
    if part in DropEmpty(init) {
      DropEmptyKeeps(init, part);
    }
  }

  lemma {:induction false} FlatHolds(groups: seq<seq<string>>, i: nat, j: nat)
    requires i < |groups| && j < |groups[i]|
    ensures groups[i][j] in Flat(groups)
  {
    if i < |groups| - 1 {
      FlatHolds(groups[..|groups| - 1], i, j);
    }
  }

  lemma GroupHasNoInner(lines: seq<string>, groups: seq<seq<string>>, i: nat)
    requires CutAtHeadings(lines, groups) && OneLiners(lines) && i < |groups|
    ensures !HasInnerHeading(Join(groups[i], "\n"))
  {
    forall j | 0 <= j < |groups[i]| ensures '\n' !in groups[i][j] {
      FlatHolds(groups, i, j);
    }
    InnerIff(groups[i]);
  }

  lemma SectionOfGroup(content: string, section: string) returns (i: nat)
    requires section in Sections(content)
    ensures var groups := Groups(Split(content, "\n"));
      i < |groups| && section == TrimSpace(TrimSpace(Join(groups[i], "\n")))
  {
    var texts := Texts(Groups(Split(content, "\n")));
    DropEmptyKeeps(Trims(texts), section);
    i :| 0 <= i < |texts| && Trims(texts)[i] == section;
  }

  /** No section has a heading line after its first line. */
  lemma SectionsAreCut(content: string, section: string, k: nat)
    requires section in Sections(content) && 1 <= k < |Split(section, "\n")|
    ensures !IsHeading(Split(section, "\n")[k])
  {
    var lines := Split(content, "\n");
    var i := SectionOfGroup(content, section);
    var text := Join(Groups(lines)[i], "\n");
    LinesAreOneLiners(content);
    GroupsCutAtHeadings(lines);
    GroupHasNoInner(lines, Groups(lines), i);
    TrimAddsNoHeading(text);
    TrimAddsNoHeading(TrimSpace(text));
    LinesAreOneLiners(section);
    SplitIsCut(section, "\n");
    InnerIff(Split(section, "\n"));
  }

  lemma ParagraphIsUnbroken(section: string, p: string)
    requires p in Paragraphs(section)
    ensures !Contains(p, "\n\n") && Trimmed(p) && p != ""
  {
    var parts := Split(section, "\n\n");
    DropEmptyKeeps(Trims(parts), p);
    var k :| 0 <= k < |parts| && Trims(parts)[k] == p;
    PartsHaveNone(section, "\n\n");
    var before, after := TrimSplits(parts[k]);
    if Contains(p, "\n\n") {
      ContainsInside(before, p, after, "\n\n");
    }
  }

  /** No paragraph of a document contains a blank line's two newlines; each is trimmed, and not empty. */
  lemma {:induction false} ParagraphsAreCut(sections: seq<string>, p: string)
    requires p in AllParagraphs(sections)
    ensures !Contains(p, "\n\n") && Trimmed(p) && p != ""
  {
    var init, last := sections[..|sections| - 1], sections[|sections| - 1];
    if p in AllParagraphs(init) {
      ParagraphsAreCut(init, p);
    } else {
      ParagraphIsUnbroken(last, p);
    }
  }
}
