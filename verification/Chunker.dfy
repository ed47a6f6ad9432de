/** The Markdown chunker (internal/rag/chunk.go:18-97): sections by heading, paragraphs, overlapping windows.
    Texts are sequences of code points. */
module Chunker {
  import opened Text
  import opened Splitting
  import Embedder
  import EmbedderTokens

  const CHUNK_SIZE := 900
  const CHUNK_OVERLAP := 120

  datatype RawChunk = RawChunk(content: string, tokenCount: nat)

  // ---------- nonEmpty ----------

  function Trims(parts: seq<string>): seq<string> {
    seq(|parts|, i requires 0 <= i < |parts| => TrimSpace(parts[i]))
  }

  function DropEmpty(parts: seq<string>): seq<string> {
    if parts == [] then []
    else
      var kept := DropEmpty(parts[..|parts| - 1]);
      if parts[|parts| - 1] == "" then kept else kept + [parts[|parts| - 1]]
  }

  method NonEmpty(parts: seq<string>) returns (out: seq<string>)
    ensures out == DropEmpty(Trims(parts))
  {
    out := [];
    for n := 0 to |parts|
      invariant out == DropEmpty(Trims(parts[..n]))
    {
      var part := TrimSpace(parts[n]);
      if part != "" {
        out := out + [part];
      }
      assert Trims(parts[..n + 1])[..n] == Trims(parts[..n]);
    }
    assert parts[..|parts|] == parts;
  }

  // ---------- sections ----------

  predicate IsHeading(line: string) {
    "#" <= TrimSpace(line)
  }

  /** A heading opens a new group, another line joins the last one. */
  function AddLine(groups: seq<seq<string>>, line: string): seq<seq<string>> {
    if groups == [] || IsHeading(line) then groups + [[line]]
    else groups[..|groups| - 1] + [groups[|groups| - 1] + [line]]
  }

  function Groups(lines: seq<string>): seq<seq<string>> {
    if lines == [] then []
    else AddLine(Groups(lines[..|lines| - 1]), lines[|lines| - 1])
  }

  function Texts(groups: seq<seq<string>>): seq<string> {
    seq(|groups|, i requires 0 <= i < |groups| => TrimSpace(Join(groups[i], "\n")))
  }

  function Sections(content: string): seq<string> {
    DropEmpty(Trims(Texts(Groups(Split(content, "\n")))))
  }

  lemma GroupsStep(lines: seq<string>, n: nat)
    requires n < |lines|
    ensures Groups(lines[..n + 1]) == AddLine(Groups(lines[..n]), lines[n])
  {
    assert lines[..n + 1][..n] == lines[..n];
  }

  lemma AddLineTo(done: seq<seq<string>>, current: seq<string>, line: string)
    ensures AddLine(done + [current], line)
         == if IsHeading(line) then done + [current] + [[line]] else done + [current + [line]]
  {
    assert (done + [current])[..|done|] == done;
  }

  lemma TextsSnoc(groups: seq<seq<string>>, group: seq<string>)
    ensures Texts(groups + [group]) == Texts(groups) + [TrimSpace(Join(group, "\n"))]
  {}

  method SplitByHeading(content: string) returns (out: seq<string>)
    ensures out == Sections(content)
  {
    var lines := Split(content, "\n");
    var sections: seq<string> := [];
    var current: seq<string> := [];
    ghost var done: seq<seq<string>> := [];
    for n := 0 to |lines|
      invariant sections == Texts(done)
      invariant if n == 0 then current == [] && done == []
                else current != [] && done + [current] == Groups(lines[..n])
    {
      var line := lines[n];
      GroupsStep(lines, n);
      AddLineTo(done, current, line);
      if "#" <= TrimSpace(line) && |current| > 0 {
        sections := sections + [TrimSpace(Join(current, "\n"))];
        TextsSnoc(done, current);
        done := done + [current];
        current := [];
      }
      current := current + [line];
      assert |current| == 1 ==> current == [line];
      assert n == 0 ==> Groups(lines[..n]) == [] && done + [current] == [[line]];
    }
    assert lines[..|lines|] == lines;
    TextsSnoc(done, current);
    if |current| > 0 {
      sections := sections + [TrimSpace(Join(current, "\n"))];
    }
    out := NonEmpty(sections);
  }

  function Flat<T>(xss: seq<seq<T>>): seq<T> {
    if xss == [] then [] else Flat(xss[..|xss| - 1]) + xss[|xss| - 1]
  }

  /** The groups are the lines, cut exactly before each heading but the first line's. */
  predicate CutAtHeadings(lines: seq<string>, groups: seq<seq<string>>) {
    && Flat(groups) == lines
    && (forall i :: 0 <= i < |groups| ==> groups[i] != [])
    && (forall i :: 0 < i < |groups| ==> IsHeading(groups[i][0]))
    && (forall i, j :: 0 <= i < |groups| && 0 < j < |groups[i]| ==> !IsHeading(groups[i][j]))
  }

  lemma FlatSnoc<T>(xss: seq<seq<T>>, xs: seq<T>)
    ensures Flat(xss + [xs]) == Flat(xss) + xs
  {
    assert (xss + [xs])[..|xss|] == xss;
  }

  lemma CutBeforeHeading(lines: seq<string>, groups: seq<seq<string>>, line: string)
    requires CutAtHeadings(lines, groups) && (groups == [] || IsHeading(line))
    ensures CutAtHeadings(lines + [line], groups + [[line]])
  {
    FlatSnoc(groups, [line]);
    var after := groups + [[line]];
    assert after[|groups|] == [line];
    assert forall i :: 0 <= i < |groups| ==> after[i] == groups[i];
  }

  lemma CutInside(lines: seq<string>, done: seq<seq<string>>, current: seq<string>, line: string)
    requires CutAtHeadings(lines, done + [current]) && !IsHeading(line)
    ensures CutAtHeadings(lines + [line], done + [current + [line]])
  {
    FlatSnoc(done, current);
    FlatSnoc(done, current + [line]);
    var before, after := done + [current], done + [current + [line]];
    assert before[|done|] == current && after[|done|] == current + [line];
    assert forall i :: 0 <= i < |done| ==> after[i] == before[i];
  }

  lemma {:induction false} GroupsCutAtHeadings(lines: seq<string>)
    ensures CutAtHeadings(lines, Groups(lines))
  {
    if lines != [] {
      var init, line := lines[..|lines| - 1], lines[|lines| - 1];
      GroupsCutAtHeadings(init);
      assert lines == init + [line];
      var groups := Groups(init);
      if groups == [] || IsHeading(line) {
        CutBeforeHeading(init, groups, line);
      } else {
        var done, current := groups[..|groups| - 1], groups[|groups| - 1];
        assert groups == done + [current];
        CutInside(init, done, current, line);
      }
    }
  }

  // ---------- paragraphs ----------

  function Paragraphs(section: string): seq<string> {
    DropEmpty(Trims(Split(section, "\n\n")))
  }

  method SplitParagraphs(content: string) returns (out: seq<string>)
    ensures out == Paragraphs(content)
  {
    var parts := Split(content, "\n\n");
    out := NonEmpty(parts);
  }

  function AllParagraphs(sections: seq<string>): seq<string> {
    if sections == [] then []
    else AllParagraphs(sections[..|sections| - 1]) + Paragraphs(sections[|sections| - 1])
  }

  // ---------- no text is lost ----------

  /** The characters of a text that are not spaces. */
  function Ink(s: string): string {
    if s == "" then ""
    else Ink(s[..|s| - 1]) + if IsSpace(s[|s| - 1]) then "" else [s[|s| - 1]]
  }

  function InkOf(parts: seq<string>): string {
    if parts == [] then "" else InkOf(parts[..|parts| - 1]) + Ink(parts[|parts| - 1])
  }

  lemma {:induction false} InkConcat(s: string, t: string)
    ensures Ink(s + t) == Ink(s) + Ink(t)
  {
    if t == "" {
      assert s + t == s;
    } else {
      var n := |t| - 1;
      assert (s + t)[..|s| + n] == s + t[..n];
      InkConcat(s, t[..n]);
    }
  }

  lemma {:induction false} BlankHasNoInk(s: string)
    requires Blank(s)
    ensures Ink(s) == ""
  {
    if s != "" {
      BlankHasNoInk(s[..|s| - 1]);
    }
  }

  lemma TrimKeepsInk(s: string)
    ensures Ink(TrimSpace(s)) == Ink(s)
  {
    var before, after := TrimSplits(s);
    BlankHasNoInk(before);
    BlankHasNoInk(after);
    InkConcat(before + TrimSpace(s), after);
    InkConcat(before, TrimSpace(s));
  }

  lemma InkAcross(s: string, sep: string, t: string)
    requires Blank(sep)
    ensures Ink(s + sep + t) == Ink(s) + Ink(t)
  {
    InkConcat(s + sep, t);
    InkConcat(s, sep);
    BlankHasNoInk(sep);
  }

  lemma InkOfSnoc(ps: seq<string>, p: string)
    ensures InkOf(ps + [p]) == InkOf(ps) + Ink(p)
  {
    assert (ps + [p])[..|ps|] == ps;
  }

  lemma SnocAssoc<T>(xs: seq<T>, ys: seq<T>)
    requires ys != []
    ensures xs + ys == (xs + ys[..|ys| - 1]) + [ys[|ys| - 1]]
  {}

  lemma {:induction false} InkOfConcat(ps: seq<string>, qs: seq<string>)
    ensures InkOf(ps + qs) == InkOf(ps) + InkOf(qs)
  {
    if qs == [] {
      assert ps + qs == ps;
    } else {
      var init, last := qs[..|qs| - 1], qs[|qs| - 1];
      SnocAssoc(ps, qs);
      InkOfConcat(ps, init);
      InkOfSnoc(ps + init, last);
    }
  }

  lemma InkOfCons(p: string, ps: seq<string>)
    ensures InkOf([p] + ps) == Ink(p) + InkOf(ps)
  {
    InkOfConcat([p], ps);
    InkOfSnoc([], p);
    assert [] + [p] == [p];
  }

  lemma {:induction false} NonEmptyKeepsInk(parts: seq<string>)
    ensures InkOf(DropEmpty(Trims(parts))) == InkOf(parts)
  {
    if parts != [] {
      var n := |parts| - 1;
      NonEmptyKeepsInk(parts[..n]);
      assert Trims(parts)[..n] == Trims(parts[..n]);
      TrimKeepsInk(parts[n]);
      InkOfSnoc(DropEmpty(Trims(parts[..n])), TrimSpace(parts[n]));
    }
  }

  lemma {:induction false} SplitKeepsInk(s: string, sep: string)
    requires sep != "" && Blank(sep)
    ensures InkOf(Split(s, sep)) == Ink(s)
    decreases |s|
  {
    var i := Index(s, sep);
    if i == -1 {
      InkOfSnoc([], s);
      assert [] + [s] == [s];
    } else {
      var rest := s[i + |sep|..];
      assert s == s[..i] + s[i..i + |sep|] + rest;
      SplitKeepsInk(rest, sep);
      InkAcross(s[..i], sep, rest);
      InkOfCons(s[..i], Split(rest, sep));
    }
  }

  lemma {:induction false} JoinKeepsInk(parts: seq<string>, sep: string)
    requires Blank(sep)
    ensures Ink(Join(parts, sep)) == InkOf(parts)
  {
    if parts != [] {
      assert parts == [parts[0]] + parts[1..];
      InkOfCons(parts[0], parts[1..]);
      if |parts| > 1 {
        JoinKeepsInk(parts[1..], sep);
        InkAcross(parts[0], sep, Join(parts[1..], sep));
      }
    }
  }

  lemma {:induction false} TextsKeepInk(groups: seq<seq<string>>)
    ensures InkOf(Texts(groups)) == InkOf(Flat(groups))
  {
    if groups != [] {
      var n := |groups| - 1;
      TextsKeepInk(groups[..n]);
      assert Texts(groups)[..n] == Texts(groups[..n]);
      TrimKeepsInk(Join(groups[n], "\n"));
      JoinKeepsInk(groups[n], "\n");
      InkOfConcat(Flat(groups[..n]), groups[n]);
    }
  }

  lemma SectionsKeepInk(content: string)
    ensures InkOf(Sections(content)) == Ink(content)
  {
    var lines := Split(content, "\n");
    var groups := Groups(lines);
    NonEmptyKeepsInk(Texts(groups));
    TextsKeepInk(groups);
    assert Flat(groups) == lines by { GroupsCutAtHeadings(lines); }
    SplitKeepsInk(content, "\n");
  }

  lemma {:induction false} ParagraphsKeepInk(sections: seq<string>)
    ensures InkOf(AllParagraphs(sections)) == InkOf(sections)
  {
    if sections != [] {
      var n := |sections| - 1;
      ParagraphsKeepInk(sections[..n]);
      NonEmptyKeepsInk(Split(sections[n], "\n\n"));
      SplitKeepsInk(sections[n], "\n\n");
      InkOfConcat(AllParagraphs(sections[..n]), Paragraphs(sections[n]));
    }
  }

  /** The paragraphs of a document hold its characters other than spaces, all of them, once, in order. */
  lemma TextIsConserved(content: string)
    ensures InkOf(AllParagraphs(Sections(content))) == Ink(content)
  {
    SectionsKeepInk(content);
    ParagraphsKeepInk(Sections(content));
  }

  // ---------- windows ----------

  function TokenCount(a: Embedder.Alphabet, text: string): nat {
    var tokens := Embedder.Tokenize(a, text);
    if tokens == [] then |text| else |tokens|
  }

  function Chunk(a: Embedder.Alphabet, text: string): RawChunk {
    RawChunk(text, TokenCount(a, text))
  }

  /** What a window leaves in the output: its trimmed text, unless nothing is left of it. */
  function PieceOf(a: Embedder.Alphabet): string -> seq<RawChunk> {
    cut => var chunk := TrimSpace(cut); if chunk == "" then [] else [Chunk(a, chunk)]
  }

  function Pieces<T>(piece: string -> seq<T>, cuts: seq<string>): seq<T> {
    if cuts == [] then [] else Pieces(piece, cuts[..|cuts| - 1]) + piece(cuts[|cuts| - 1])
  }

  function EndOf(text: string, size: int, start: nat): int {
    if start + size > |text| then |text| else start + size
  }

  /** The windows of splitLongText before they are trimmed, from `start` on. */
  function Cuts(text: string, size: int, step: int, start: nat): seq<string>
    requires 0 < size && 0 < step
    decreases |text| - start
  {
    if |text| <= start then []
    else
      var end := EndOf(text, size, start);
      [text[start..end]] + if end == |text| then [] else Cuts(text, size, step, start + step)
  }

  function Windows(text: string, size: int, overlap: int): seq<string>
    requires 0 < size
  {
    Cuts(text, size, if size - overlap <= 0 then size else size - overlap, 0)
  }

  function LongText(a: Embedder.Alphabet, text: string, size: int, overlap: int): seq<RawChunk>
    requires 0 < size
  {
    var t := TrimSpace(text);
    if t == "" then []
    else if |t| <= size then [Chunk(a, t)]
    else Pieces(PieceOf(a), Windows(t, size, overlap))
  }

  lemma PiecesSnoc<T>(piece: string -> seq<T>, done: seq<string>, cut: string)
    ensures Pieces(piece, done + [cut]) == Pieces(piece, done) + piece(cut)
  {
    assert (done + [cut])[..|done|] == done;
  }

  /** What is left after the window at `start`. */
  function After(text: string, size: int, step: int, start: nat): seq<string>
    requires 0 < size && 0 < step
  {
    if EndOf(text, size, start) == |text| then [] else Cuts(text, size, step, start + step)
  }

  lemma CutsUnfold(text: string, size: int, step: int, start: nat, cut: string)
    requires 0 < size && 0 < step && start < |text| && cut == text[start..EndOf(text, size, start)]
    ensures Cuts(text, size, step, start) == [cut] + After(text, size, step, start)
  {}

  /** The windows done and those still to come are all of them. */
  predicate Covers(done: seq<string>, text: string, size: int, step: int, start: nat, all: seq<string>)
    requires 0 < size && 0 < step
  {
    done + Cuts(text, size, step, start) == all
  }

  lemma WindowStep(text: string, size: int, step: int, start: nat, done: seq<string>, cut: string, all: seq<string>)
    requires 0 < size && 0 < step && start < |text| && cut == text[start..EndOf(text, size, start)]
    requires Covers(done, text, size, step, start, all)
    ensures if EndOf(text, size, start) == |text| then done + [cut] == all
            else Covers(done + [cut], text, size, step, start + step, all)
  {
    CutsUnfold(text, size, step, start, cut);
    assert done + ([cut] + After(text, size, step, start)) == (done + [cut]) + After(text, size, step, start);
  }

  /** The loop of splitLongText; `piece` is what it appends for a window. */
  method CutWindows<T>(piece: string -> seq<T>, text: string, size: int, overlap: int) returns (out: seq<T>)
    requires 0 < size
    ensures out == Pieces(piece, Windows(text, size, overlap))
  {
    var step := size - overlap;
    if step <= 0 {
      step := size;
    }
    out := [];
    var start := 0;
    ghost var done: seq<string> := [];
    ghost var all := Windows(text, size, overlap);
    assert done + all == all;
    while start < |text|
      invariant 0 <= start
      invariant Covers(done, text, size, step, start, all)
      invariant out == Pieces(piece, done)
      decreases |text| - start
    {
      var end := start + size;
      if end > |text| {
        end := |text|;
      }
      var cut := text[start..end];
      WindowStep(text, size, step, start, done, cut, all);
      PiecesSnoc(piece, done, cut);
      out := out + piece(cut);
      done := done + [cut];
      if end == |text| {
        return;
      }
      start := start + step;
    }
    assert done + [] == done;
  }

  /** splitLongText; its one caller passes a positive size. */
  method SplitLongText(a: Embedder.Alphabet, input: string, size: int, overlap: int) returns (out: seq<RawChunk>)
    requires 0 < size
    ensures out == LongText(a, input, size, overlap)
  {
    var text := TrimSpace(input);
    if text == "" {
      return [];
    }
    if |text| <= size {
      return [Chunk(a, text)];
    }
    out := CutWindows(PieceOf(a), text, size, overlap);
  }

  // ---------- the arithmetic of the windows ----------

  lemma {:induction false} CutAtOf(text: string, size: int, step: int, start: nat, k: nat, cuts: seq<string>)
    requires 0 < size && 0 < step <= size && cuts == Cuts(text, size, step, start) && k < |cuts|
    ensures var from := start + k * step;
      && 0 <= from < |text|
      && cuts[k] == text[from..EndOf(text, size, from)]
      && (k + 1 < |cuts| <==> from + size < |text|)
    decreases k
  {
    var after := After(text, size, step, start);
    CutsUnfold(text, size, step, start, text[start..EndOf(text, size, start)]);
    if k > 0 {
      CutAtOf(text, size, step, start + step, k - 1, after);
      assert start + step + (k - 1) * step == start + k * step;
    } else {
      AfterIsEmpty(text, size, step, start);
    }
  }

  lemma AfterIsEmpty(text: string, size: int, step: int, start: nat)
    requires 0 < size && 0 < step <= size && start < |text|
    ensures 0 < |After(text, size, step, start)| <==> start + size < |text|
  {}

  lemma CutAt(text: string, size: int, step: int, start: nat, k: nat)
    requires 0 < size && 0 < step <= size && k < |Cuts(text, size, step, start)|
    ensures var from := start + k * step; var cuts := Cuts(text, size, step, start);
      && 0 <= from < |text|
      && cuts[k] == text[from..EndOf(text, size, from)]
      && (k + 1 < |cuts| <==> from + size < |text|)
  {
    CutAtOf(text, size, step, start, k, Cuts(text, size, step, start));
  }

  /** How much neighbouring windows share: with an overlap of a whole window or more, nothing. */
  function Shared(size: int, overlap: int): int {
    if overlap < size then overlap else 0
  }

  /** A text longer than a window is cut into ceil((n - size) / step) + 1 windows: the last index is the
      least one whose window reaches the end. */
  lemma WindowCount(text: string, size: int, overlap: int)
    requires 0 <= overlap && 0 < size < |text|
    ensures var step := size - Shared(size, overlap); var last := |Windows(text, size, overlap)| - 1;
      0 < last && (last - 1) * step < |text| - size <= last * step
    decreases overlap
  {
    if size <= overlap {
      WindowCount(text, size, 0);
      return;
    }
    var step := size - overlap;
    var cuts := Cuts(text, size, step, 0);
    CutAt(text, size, step, 0, |cuts| - 1);
    assert |Cuts(text, size, step, step)| > 0;
    CutAt(text, size, step, 0, |cuts| - 2);
  }

  /** Every window but the last is full and shares exactly the overlap with the next; the last is longer
      than the overlap, so that no window lies inside another. */
  lemma WindowShape(text: string, size: int, overlap: int, k: nat)
    requires 0 <= overlap && 0 < size < |text| && k < |Windows(text, size, overlap)|
    ensures var cuts := Windows(text, size, overlap); var shared := Shared(size, overlap);
      && (k + 1 < |cuts| ==>
            |cuts[k]| == size && shared < |cuts[k + 1]|
            && cuts[k][size - shared..] == cuts[k + 1][..shared])
      && shared < |cuts[k]| <= size
    decreases overlap
  {
    if size <= overlap {
      WindowShape(text, size, 0, k);
      return;
    }
    var step := size - overlap;
    var cuts := Cuts(text, size, step, 0);
    CutAt(text, size, step, 0, k);
    if k + 1 < |cuts| {
      CutAt(text, size, step, 0, k + 1);
      NextCut(text, size, overlap, k);
    } else {
      assert |Cuts(text, size, step, step)| > 0;
      CutAt(text, size, step, 0, k - 1);
      assert k * step == (k - 1) * step + step;
    }
  }

  lemma SharedPart(text: string, from: nat, middle: nat, end: nat, last: nat)
    requires from <= middle <= end <= last <= |text|
    ensures text[from..end][middle - from..] == text[middle..last][..end - middle]
  {}

  lemma NextCut(text: string, size: int, overlap: int, k: nat)
    requires 0 <= overlap < size
    requires var cuts := Windows(text, size, overlap); k + 1 < |cuts|
    ensures var cuts := Windows(text, size, overlap);
      |cuts[k]| == size && overlap < |cuts[k + 1]| && cuts[k][size - overlap..] == cuts[k + 1][..overlap]
  {
    var step := size - overlap;
    CutAt(text, size, step, 0, k);
    CutAt(text, size, step, 0, k + 1);
    var from := k * step;
    assert (k + 1) * step == from + step;
    SharedPart(text, from, from + step, from + size, EndOf(text, size, from + step));
  }

  function Drop(s: string, n: nat): string {
    if |s| <= n then "" else s[n..]
  }

  /** The windows' new characters: each window without its first `overlap` characters. */
  function News(cuts: seq<string>, overlap: nat): string {
    if cuts == [] then "" else Drop(cuts[0], overlap) + News(cuts[1..], overlap)
  }

  lemma NewsCons(cuts: seq<string>, cut: string, after: seq<string>, overlap: nat)
    requires cuts == [cut] + after
    ensures News(cuts, overlap) == Drop(cut, overlap) + News(after, overlap)
  {
    assert cuts[1..] == after;
  }

  lemma DropOfCut(text: string, start: nat, end: int, overlap: nat)
    requires start + overlap <= end <= |text|
    ensures Drop(text[start..end], overlap) + text[end..] == text[start + overlap..]
  {}

  lemma NewsStep(text: string, size: int, overlap: int, start: nat, cuts: seq<string>, after: seq<string>, cut: string)
    requires 0 <= overlap < size && start + overlap < |text|
    requires cuts == [cut] + after && cut == text[start..EndOf(text, size, start)]
    requires News(after, overlap) == text[EndOf(text, size, start)..]
    ensures News(cuts, overlap) == text[start + overlap..]
  {
    NewsCons(cuts, cut, after, overlap);
    DropOfCut(text, start, EndOf(text, size, start), overlap);
  }

  lemma {:induction false} NewsOfCuts(text: string, size: int, overlap: int, start: nat, cuts: seq<string>)
    requires 0 <= overlap < size && start + overlap < |text| && cuts == Cuts(text, size, size - overlap, start)
    ensures News(cuts, overlap) == text[start + overlap..]
    decreases |text| - start
  {
    var cut := text[start..EndOf(text, size, start)];
    var after := After(text, size, size - overlap, start);
    CutsUnfold(text, size, size - overlap, start, cut);
    if start + size < |text| {
      NewsOfCuts(text, size, overlap, start + size - overlap, after);
    }
    NewsStep(text, size, overlap, start, cuts, after, cut);
  }

  lemma HeadAndNews(text: string, size: nat, overlap: nat, cuts: seq<string>, after: seq<string>)
    requires size <= |text| && cuts == [text[..size]] + after && News(after, overlap) == text[size..]
    ensures cuts[0] + News(cuts[1..], overlap) == text
  {
    assert cuts[1..] == after;
  }

  /** The first window, followed by what each later one adds to its predecessor, is the text again. */
  lemma WindowsRebuild(text: string, size: int, overlap: int)
    requires 0 <= overlap && 0 < size < |text|
    ensures var cuts := Windows(text, size, overlap);
      0 < |cuts| && cuts[0] + News(cuts[1..], Shared(size, overlap)) == text
    decreases overlap
  {
    if size <= overlap {
      WindowsRebuild(text, size, 0);
      return;
    }
    var cuts, after := Windows(text, size, overlap), After(text, size, size - overlap, 0);
    CutsUnfold(text, size, size - overlap, 0, text[..size]);
    NewsOfCuts(text, size, overlap, size - overlap, after);
    HeadAndNews(text, size, overlap, cuts, after);
  }

  // ---------- SplitMarkdown ----------

  function ChunksOfText(a: Embedder.Alphabet): string -> seq<RawChunk> {
    text => LongText(a, text, CHUNK_SIZE, CHUNK_OVERLAP)
  }

  function ChunksOf(a: Embedder.Alphabet, paragraphs: seq<string>): seq<RawChunk> {
    Pieces(ChunksOfText(a), paragraphs)
  }

  lemma ParagraphStep<T>(piece: string -> seq<T>, before: seq<string>, paragraphs: seq<string>, m: nat)
    requires m < |paragraphs|
    ensures Pieces(piece, before + paragraphs[..m + 1]) == Pieces(piece, before + paragraphs[..m]) + piece(paragraphs[m])
  {
    PiecesSnoc(piece, before + paragraphs[..m], paragraphs[m]);
    assert before + paragraphs[..m + 1] == before + paragraphs[..m] + [paragraphs[m]];
  }

  lemma SectionStep(sections: seq<string>, n: nat)
    requires n < |sections|
    ensures AllParagraphs(sections[..n + 1]) == AllParagraphs(sections[..n]) + Paragraphs(sections[n])
  {
    assert sections[..n + 1][..n] == sections[..n];
  }

  method SplitMarkdown(a: Embedder.Alphabet, content: string) returns (chunks: seq<RawChunk>)
    ensures chunks == ChunksOf(a, AllParagraphs(Sections(content)))
  {
    var sections := SplitByHeading(content);
    chunks := [];
    for n := 0 to |sections|
      invariant chunks == ChunksOf(a, AllParagraphs(sections[..n]))
    {
      var paragraphs := SplitParagraphs(sections[n]);
      ghost var before := AllParagraphs(sections[..n]);
      assert before + paragraphs[..0] == before;
      for m := 0 to |paragraphs|
        invariant chunks == ChunksOf(a, before + paragraphs[..m])
      {
        var long := SplitLongText(a, paragraphs[m], CHUNK_SIZE, CHUNK_OVERLAP);
        ParagraphStep(ChunksOfText(a), before, paragraphs, m);
        chunks := chunks + long;
      }
      assert paragraphs[..|paragraphs|] == paragraphs;
      SectionStep(sections, n);
    }
    assert sections[..|sections|] == sections;
  }

  /** How many runs of letters and digits a text has, or how many characters if it has none. */
  function WordCount(a: Embedder.Alphabet, text: string): nat {
    var n := EmbedderTokens.Starts(a, Embedder.LowerText(a, text), false);
    if n == 0 then |text| else n
  }

  predicate GoodChunk(a: Embedder.Alphabet, c: RawChunk) {
    0 < |c.content| <= CHUNK_SIZE && Trimmed(c.content) && c.tokenCount == WordCount(a, c.content) && 0 < c.tokenCount
  }

  lemma ChunkIsCounted(a: Embedder.Alphabet, text: string)
    ensures Chunk(a, text).content == text && Chunk(a, text).tokenCount == WordCount(a, text)
  {
    EmbedderTokens.FieldsCount(a, Embedder.LowerText(a, text));
  }

  lemma {:induction false} PiecesAreGood(a: Embedder.Alphabet, cuts: seq<string>)
    requires forall i :: 0 <= i < |cuts| ==> |cuts[i]| <= CHUNK_SIZE
    ensures forall c :: c in Pieces(PieceOf(a), cuts) ==> GoodChunk(a, c)
  {
    if cuts != [] {
      PiecesAreGood(a, cuts[..|cuts| - 1]);
      var _, _ := TrimSplits(cuts[|cuts| - 1]);
      ChunkIsCounted(a, TrimSpace(cuts[|cuts| - 1]));
    }
  }

  lemma WindowsFit(text: string, size: int, overlap: int)
    requires 0 <= overlap < size
    ensures var cuts := Windows(text, size, overlap); forall k :: 0 <= k < |cuts| ==> |cuts[k]| <= size
  {
    var cuts := Windows(text, size, overlap);
    forall k | 0 <= k < |cuts| ensures |cuts[k]| <= size {
      CutAt(text, size, size - overlap, 0, k);
    }
  }

  lemma LongTextIsGood(a: Embedder.Alphabet, text: string)
    ensures forall c :: c in LongText(a, text, CHUNK_SIZE, CHUNK_OVERLAP) ==> GoodChunk(a, c)
  {
    var _, _ := TrimSplits(text);
    var t := TrimSpace(text);
    ChunkIsCounted(a, t);
    WindowsFit(t, CHUNK_SIZE, CHUNK_OVERLAP);
    PiecesAreGood(a, Windows(t, CHUNK_SIZE, CHUNK_OVERLAP));
  }

  /** Every chunk of a document is trimmed, not empty, at most a window long, and has tokens. */
  lemma {:induction false} ChunksAreGood(a: Embedder.Alphabet, paragraphs: seq<string>)
    ensures forall c :: c in ChunksOf(a, paragraphs) ==> GoodChunk(a, c)
  {
    if paragraphs != [] {
      ChunksAreGood(a, paragraphs[..|paragraphs| - 1]);
      LongTextIsGood(a, paragraphs[|paragraphs| - 1]);
    }
  }

  // ---------- what the chunks keep of the document ----------

  function Inks(chunks: seq<RawChunk>): seq<string> {
    seq(|chunks|, i requires 0 <= i < |chunks| => Ink(chunks[i].content))
  }

  /** The texts in a row, each without its first `shared[k]` characters. */
  function Merge(inks: seq<string>, shared: seq<nat>): string
    requires |inks| == |shared|
  {
    if inks == [] then ""
    else Merge(inks[..|inks| - 1], shared[..|inks| - 1]) + Drop(inks[|inks| - 1], shared[|inks| - 1])
  }

  /** What is left out of a text in `Merge` stands there already, at the end of what goes before; it is no
      longer than the overlap. */
  predicate Overlapping(inks: seq<string>, shared: seq<nat>) {
    && |inks| == |shared|
    && (inks != [] ==>
          var n := |inks| - 1;
          && Overlapping(inks[..n], shared[..n])
          && shared[n] <= CHUNK_OVERLAP && shared[n] <= |inks[n]|
          && EndsWith(Merge(inks[..n], shared[..n]), inks[n][..shared[n]]))
  }

  /** The chunks so far, merged, are `text`. */
  predicate MergesTo(inks: seq<string>, shared: seq<nat>, text: string) {
    Overlapping(inks, shared) && Merge(inks, shared) == text
  }

  lemma MergeSnoc(inks: seq<string>, shared: seq<nat>, text: string, ink: string, k: nat)
    requires MergesTo(inks, shared, text) && k <= CHUNK_OVERLAP && k <= |ink| && EndsWith(text, ink[..k])
    ensures MergesTo(inks + [ink], shared + [k], text + Drop(ink, k))
  {
    assert (inks + [ink])[..|inks|] == inks && (shared + [k])[..|inks|] == shared;
  }

  lemma EndOfConcat(s: string, t: string)
    ensures EndsWith(s + t, t)
  {}

  /** One more chunk, whose text begins with characters that the chunks so far end in. */
  lemma ChunkMerges(inks: seq<string>, shared: seq<nat>, before: string, head: string, tail: string)
    requires MergesTo(inks, shared, before + Ink(head)) && |head| <= CHUNK_OVERLAP
    ensures MergesTo(inks + [Ink(head + tail)], shared + [|Ink(head)|], before + Ink(head) + Ink(tail))
  {
    InkConcat(head, tail);
    InkIsShorter(head);
    EndOfConcat(before, Ink(head));
    var ink := Ink(head + tail);
    assert ink[..|Ink(head)|] == Ink(head);
    assert Drop(ink, |Ink(head)|) == Ink(tail);
    MergeSnoc(inks, shared, before + Ink(head), ink, |Ink(head)|);
  }

  lemma {:induction false} InkIsShorter(s: string)
    ensures |Ink(s)| <= |s|
  {
    if s != "" {
      InkIsShorter(s[..|s| - 1]);
    }
  }

  lemma {:induction false} PiecesConcat<T>(piece: string -> seq<T>, cuts: seq<string>, more: seq<string>)
    ensures Pieces(piece, cuts + more) == Pieces(piece, cuts) + Pieces(piece, more)
  {
    if more == [] {
      assert cuts + more == cuts;
    } else {
      SnocAssoc(cuts, more);
      PiecesConcat(piece, cuts, more[..|more| - 1]);
      PiecesSnoc(piece, cuts + more[..|more| - 1], more[|more| - 1]);
    }
  }

  lemma CutInk(t: string, from: nat, middle: nat, end: nat)
    requires from <= middle <= end <= |t|
    ensures t[from..end] == t[from..middle] + t[middle..end]
    ensures Ink(t[..end]) == Ink(t[..from]) + Ink(t[from..middle]) + Ink(t[middle..end])
    ensures Ink(t[..middle]) == Ink(t[..from]) + Ink(t[from..middle])
  {
    assert t[..middle] == t[..from] + t[from..middle];
    assert t[..end] == t[..middle] + t[middle..end];
    InkConcat(t[..from], t[from..middle]);
    InkConcat(t[..middle], t[middle..end]);
  }

  lemma PieceInks(a: Embedder.Alphabet, cut: string)
    ensures Inks(PieceOf(a)(cut)) == if TrimSpace(cut) == "" then [] else [Ink(cut)]
    ensures TrimSpace(cut) == "" ==> Ink(cut) == ""
  {
    TrimKeepsInk(cut);
  }

  /** A window whose first part the chunks so far end in. */
  lemma PieceMerges(a: Embedder.Alphabet, inks: seq<string>, shared: seq<nat>, before: string, head: string,
                    tail: string) returns (shared': seq<nat>)
    requires MergesTo(inks, shared, before + Ink(head)) && |head| <= CHUNK_OVERLAP
    ensures MergesTo(inks + Inks(PieceOf(a)(head + tail)), shared', before + Ink(head) + Ink(tail))
  {
    PieceInks(a, head + tail);
    if TrimSpace(head + tail) == "" {
      InkConcat(head, tail);
      shared' := shared;
      assert inks + [] == inks;
      assert before + Ink(head) + "" == before + Ink(head);
    } else {
      ChunkMerges(inks, shared, before, head, tail);
      shared' := shared + [|Ink(head)|];
    }
  }

  /** The window from `from` to `end`, of which the chunks so far have seen what is before `middle`. */
  lemma WindowMerges(a: Embedder.Alphabet, t: string, from: nat, middle: nat, end: nat, inks: seq<string>,
                     shared: seq<nat>, before: string) returns (shared': seq<nat>)
    requires from <= middle <= end <= |t| && middle - from <= CHUNK_OVERLAP
    requires MergesTo(inks, shared, before + Ink(t[..middle]))
    ensures MergesTo(inks + Inks(PieceOf(a)(t[from..end])), shared', before + Ink(t[..end]))
  {
    CutInk(t, from, middle, end);
    Assoc(before, Ink(t[..from]), Ink(t[from..middle]));
    Assoc(before, Ink(t[..from]) + Ink(t[from..middle]), Ink(t[middle..end]));
    shared' := PieceMerges(a, inks, shared, before + Ink(t[..from]), t[from..middle], t[middle..end]);
  }

  lemma InksCons(inks: seq<string>, piece: string -> seq<RawChunk>, cut: string, after: seq<string>, cuts: seq<string>)
    requires cuts == [cut] + after
    ensures inks + Inks(Pieces(piece, cuts)) == (inks + Inks(piece(cut))) + Inks(Pieces(piece, after))
  {
    PiecesConcat(piece, [cut], after);
    PiecesSnoc(piece, [], cut);
    assert [] + [cut] == [cut] && [] + piece(cut) == piece(cut);
    InksConcat(piece(cut), Pieces(piece, after));
    Assoc(inks, Inks(piece(cut)), Inks(Pieces(piece, after)));
  }

  lemma Assoc<T>(a: seq<T>, b: seq<T>, c: seq<T>)
    ensures (a + b) + c == a + (b + c)
  {}

  lemma InksConcat(cs: seq<RawChunk>, ds: seq<RawChunk>)
    ensures Inks(cs + ds) == Inks(cs) + Inks(ds)
  {}

  lemma {:induction false} WindowsMerge(a: Embedder.Alphabet, t: string, from: nat, middle: nat, cuts: seq<string>,
                                         inks: seq<string>, shared: seq<nat>, before: string)
    returns (shared': seq<nat>)
    requires from < |t| && from <= middle <= |t| && middle - from <= CHUNK_OVERLAP
    requires cuts == Cuts(t, CHUNK_SIZE, CHUNK_SIZE - CHUNK_OVERLAP, from)
    requires MergesTo(inks, shared, before + Ink(t[..middle]))
    ensures MergesTo(inks + Inks(Pieces(PieceOf(a), cuts)), shared', before + Ink(t))
    decreases |t| - from
  {
    var step := CHUNK_SIZE - CHUNK_OVERLAP;
    var end := EndOf(t, CHUNK_SIZE, from);
    var cut, after := t[from..end], After(t, CHUNK_SIZE, step, from);
    CutsUnfold(t, CHUNK_SIZE, step, from, cut);
    InksCons(inks, PieceOf(a), cut, after, cuts);
    shared' := WindowMerges(a, t, from, middle, end, inks, shared, before);
    if end < |t| {
      shared' := WindowsMerge(a, t, from + step, end, after, inks + Inks(PieceOf(a)(cut)), shared', before);
    } else {
      assert t[..end] == t && after == [];
      assert inks + Inks(PieceOf(a)(cut)) + [] == inks + Inks(PieceOf(a)(cut));
    }
  }

  lemma LongTextMerges(a: Embedder.Alphabet, p: string, inks: seq<string>, shared: seq<nat>, before: string)
    returns (shared': seq<nat>)
    requires MergesTo(inks, shared, before)
    ensures MergesTo(inks + Inks(LongText(a, p, CHUNK_SIZE, CHUNK_OVERLAP)), shared', before + Ink(p))
  {
    var t := TrimSpace(p);
    TrimKeepsInk(p);
    assert before + "" == before;
    if t == "" {
      shared' := shared;
      assert inks + [] == inks;
    } else if |t| <= CHUNK_SIZE {
      MergeSnoc(inks, shared, before, Ink(t), 0);
      shared' := shared + [0];
      assert Inks([Chunk(a, t)]) == [Ink(t)];
    } else {
      shared' := WindowsMerge(a, t, 0, 0, Windows(t, CHUNK_SIZE, CHUNK_OVERLAP), inks, shared, before);
    }
  }

  lemma {:induction false} ParagraphsMerge(a: Embedder.Alphabet, paragraphs: seq<string>) returns (shared: seq<nat>)
    ensures MergesTo(Inks(ChunksOf(a, paragraphs)), shared, InkOf(paragraphs))
  {
    if paragraphs == [] {
      shared := [];
    } else {
      var n := |paragraphs| - 1;
      var init, last := paragraphs[..n], paragraphs[n];
      shared := ParagraphsMerge(a, init);
      shared := LongTextMerges(a, last, Inks(ChunksOf(a, init)), shared, InkOf(init));
      InksConcat(ChunksOf(a, init), LongText(a, last, CHUNK_SIZE, CHUNK_OVERLAP));
    }
  }

  /** The chunks of a document hold its characters other than spaces, all of them and in order: laid in a row,
      each without the at most CHUNK_OVERLAP characters at its beginning that repeat the end of the row before
      it, they are the document. */
  lemma ChunksKeepText(a: Embedder.Alphabet, content: string) returns (shared: seq<nat>)
    ensures MergesTo(Inks(ChunksOf(a, AllParagraphs(Sections(content)))), shared, Ink(content))
  {
    shared := ParagraphsMerge(a, AllParagraphs(Sections(content)));
    TextIsConserved(content);
  }
}
