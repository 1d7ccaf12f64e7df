/**
 * The text helpers of the PDF processor (PDFProcessor): heading-based section
 * detection, overlapping word chunks, frequency-ranked key concepts and the clean-up
 * applied to extracted text. Reading the PDF itself (PyMuPDF) is outside the model;
 * the helpers work on the text it produced.
 */
module PdfProcessor {
  import opened Wrappers
  import opened Text
  import opened Ranking

  /** self.min_text_length */
  const MinTextLength: nat := 50

  /** The end of the longest run of characters satisfying p that starts at position i. */
  function RunEnd(s: string, i: nat, p: char -> bool): (j: nat)
    requires i <= |s|
    ensures i <= j <= |s|
    ensures forall k :: i <= k < j ==> p(s[k])
    ensures j == |s| || !p(s[j])
    decreases |s| - i
  {
    if i < |s| && p(s[i]) then RunEnd(s, i + 1, p) else i
  }

  // ---------------------------------------------------------------------------
  // headings: the four patterns, matched with re.match against one stripped line
  // (a line never contains a newline, so `.` and `$` need no special case)

  predicate IsSeparator(c: char) {
    c == ':' || c == '.' || IsSpace(c)
  }

  /** `^(W)\s+\d+[:\.\s]+(.+)$` for the word W: W, whitespace, a number, a separator
      and at least one more character. The whitespace and digit runs can only be the
      longest ones, since a digit is neither whitespace nor a separator. */
  predicate IsNumberedHeading(line: string, word: string) {
    IsPrefix(word, line)
    && var a := RunEnd(line, |word|, IsSpace);
       var b := RunEnd(line, a, IsDigit);
       a > |word| && b > a && b + 1 < |line| && IsSeparator(line[b])
  }

  /** `^(\d+\.\s+)([A-Z][^.!?]*?)$`: "12.  Title" with no '.', '!' or '?' in the title. */
  predicate IsNumberedTitle(line: string) {
    var d := RunEnd(line, 0, IsDigit);
    d > 0 && d < |line| && line[d] == '.'
    && var w := RunEnd(line, d + 1, IsSpace);
       w > d + 1 && w < |line| && IsUpper(line[w])
       && forall k :: w < k < |line| ==> line[k] != '.' && line[k] != '!' && line[k] != '?'
  }

  /** `^([A-Z][A-Z\s]{3,}?)$`: four or more capitals and spaces, starting with a capital. */
  predicate IsCapitalsHeading(line: string) {
    |line| >= 4 && IsUpper(line[0]) && forall k :: 1 <= k < |line| ==> IsUpper(line[k]) || IsSpace(line[k])
  }

  datatype HeadingPattern = ChapterPattern | NumberedPattern | CapitalsPattern | UnitPattern

  const HeadingPatterns: seq<HeadingPattern> := [ChapterPattern, NumberedPattern, CapitalsPattern, UnitPattern]

  predicate Matches(p: HeadingPattern, line: string) {
    match p
    case ChapterPattern => IsNumberedHeading(line, "Chapter") || IsNumberedHeading(line, "CHAPTER")
    case NumberedPattern => IsNumberedTitle(line)
    case CapitalsPattern => IsCapitalsHeading(line)
    case UnitPattern => IsNumberedHeading(line, "Unit") || IsNumberedHeading(line, "UNIT")
  }

  predicate IsHeading(line: string) {
    exists k :: 0 <= k < |HeadingPatterns| && Matches(HeadingPatterns[k], line)
  }

  // ---------------------------------------------------------------------------
  // detect_sections

  datatype Section = Section(title: string, content: string)

  /** The sections saved so far and the section being filled. */
  datatype ScanState = ScanState(sections: seq<Section>, current: Section)

  const InitialState: ScanState := ScanState([], Section("Introduction", ""))

  /** One line of the scan: blank lines are skipped; a heading saves the current section
      if it has content and opens a new, empty one; any other line is appended stripped,
      followed by one space. */
  function Step(st: ScanState, raw: string): ScanState {
    var line := Strip(raw);
    if line == [] then st
    else if IsHeading(line) then
      ScanState(if Strip(st.current.content) != [] then st.sections + [st.current] else st.sections,
                Section(line, ""))
    else
      ScanState(st.sections, st.current.(content := st.current.content + line + " "))
  }

  function Scan(lines: seq<string>): ScanState {
    if lines == [] then InitialState else Step(Scan(lines[..|lines| - 1]), lines[|lines| - 1])
  }

  /** The saved sections and, if it has content, the last one. */
  function Finish(st: ScanState): seq<Section> {
    if Strip(st.current.content) != [] then st.sections + [st.current] else st.sections
  }

  function DetectSectionsOf(text: string): seq<Section> {
    var sections := Finish(Scan(SplitOn(text, '\n')));
    if sections == [] then [Section("Main Content", text)] else sections
  }

  method DetectSections(text: string) returns (sections: seq<Section>)
    ensures sections == DetectSectionsOf(text)
  {
    var lines := SplitOn(text, '\n');
    sections := [];
    var current := Section("Introduction", "");
    for i := 0 to |lines|
      invariant ScanState(sections, current) == Scan(lines[..i])
    {
      assert lines[..i + 1][..i] == lines[..i];
      var line := Strip(lines[i]);
      if line == [] {
        continue;
      }
      var isHeading := false;
      var j := 0;
      while j < |HeadingPatterns|
        invariant 0 <= j <= |HeadingPatterns| && !isHeading
        invariant ScanState(sections, current) == Scan(lines[..i])
        invariant forall k :: 0 <= k < j ==> !Matches(HeadingPatterns[k], line)
      {
        if Matches(HeadingPatterns[j], line) {
          if Strip(current.content) != [] {
            sections := sections + [current];
          }
          current := Section(line, "");
          isHeading := true;
          break;
        }
        j := j + 1;
      }
      if !isHeading {
        current := current.(content := current.content + line + " ");
      }
    }
    assert lines[..|lines|] == lines;
    if Strip(current.content) != [] {
      sections := sections + [current];
    }
    if sections == [] {
      sections := sections + [Section("Main Content", text)];
    }
  }

  /** The body lines, stripped, each followed by one space: everything a section's
      content is made of. */
  function BodyText(lines: seq<string>): string {
    if lines == [] then []
    else
      var line := Strip(lines[|lines| - 1]);
      BodyText(lines[..|lines| - 1]) + (if line != [] && !IsHeading(line) then line + " " else [])
  }

  function Contents(sections: seq<Section>): string {
    if sections == [] then [] else Contents(sections[..|sections| - 1]) + sections[|sections| - 1].content
  }

  predicate IsTitle(t: string) {
    t == "Introduction" || IsHeading(t)
  }

  predicate ScanInvariant(st: ScanState, lines: seq<string>) {
    && Contents(st.sections) + st.current.content == BodyText(lines)
    && (st.current.content == [] || !IsSpace(st.current.content[0]))
    && (forall k :: 0 <= k < |st.sections| ==> Strip(st.sections[k].content) != [] && IsTitle(st.sections[k].title))
    && IsTitle(st.current.title)
  }

  lemma {:induction false} ScanKeepsInvariant(lines: seq<string>)
    ensures ScanInvariant(Scan(lines), lines)
  {
    if lines != [] {
      var init := lines[..|lines| - 1];
      var raw := lines[|lines| - 1];
      ScanKeepsInvariant(init);
      var line := Strip(raw);
      var st := Scan(init);
      assert Scan(lines) == Step(st, raw);
      if line == [] {
        assert BodyText(lines) == BodyText(init);
      } else if IsHeading(line) {
        assert BodyText(lines) == BodyText(init);
        HeadingKeepsInvariant(st, init, line);
      } else {
        assert BodyText(lines) == BodyText(init) + (line + " ");
        StripEnds(raw);
        BodyLineKeepsInvariant(Contents(st.sections), st.current.content, BodyText(init), line);
      }
    }
  }

  /** A heading line closes the current section (kept only with content) and opens an
      empty one under the heading. */
  lemma HeadingKeepsInvariant(st: ScanState, lines: seq<string>, line: string)
    requires ScanInvariant(st, lines) && IsHeading(line)
    ensures var saved := if Strip(st.current.content) != [] then st.sections + [st.current] else st.sections;
      ScanInvariant(ScanState(saved, Section(line, "")), lines)
  {
    var c := st.current;
    if Strip(c.content) != [] {
      var saved := st.sections + [c];
      assert saved[..|saved| - 1] == st.sections;
      assert Contents(saved) == Contents(st.sections) + c.content;
      forall k | 0 <= k < |saved| ensures Strip(saved[k].content) != [] && IsTitle(saved[k].title) {
        if k < |st.sections| {
          assert saved[k] == st.sections[k];
        }
      }
    } else {
      StripEmptyIffBlank(c.content);
      assert c.content == [];
    }
  }

  /** A body line, stripped and followed by a space, is appended to the current
      section's text: the text so far grows by exactly that, and the section still does
      not start with a space. */
  lemma BodyLineKeepsInvariant(saved: string, c: string, body: string, line: string)
    requires saved + c == body
    requires c == [] || !IsSpace(c[0])
    requires line != [] && !IsSpace(line[0])
    ensures saved + (c + line + " ") == body + (line + " ")
    ensures !IsSpace((c + line + " ")[0])
  {
    assert saved + (c + line + " ") == (saved + c) + (line + " ");
    if c == [] {
      assert (c + line + " ")[0] == line[0];
    } else {
      assert (c + line + " ")[0] == c[0];
    }
  }


  /** detect_sections never returns an empty list. When the text has no body line (every
      non-blank line is a heading) it returns the whole text as "Main Content"; otherwise
      the contents of the returned sections, in order, are exactly the body lines, every
      section has content, and every title is "Introduction" or a heading line. */
  lemma DetectSectionsProperties(text: string)
    ensures |DetectSectionsOf(text)| >= 1
    ensures BodyText(SplitOn(text, '\n')) == [] ==> DetectSectionsOf(text) == [Section("Main Content", text)]
    ensures BodyText(SplitOn(text, '\n')) != [] ==>
              && Contents(DetectSectionsOf(text)) == BodyText(SplitOn(text, '\n'))
              && forall k :: 0 <= k < |DetectSectionsOf(text)| ==>
                   Strip(DetectSectionsOf(text)[k].content) != [] && IsTitle(DetectSectionsOf(text)[k].title)
    // The lines cut at the headings; one section per group with a non-blank body, in
    // order, titled by the group's heading ("Introduction" before the first) and holding
    // the group's body lines.
    ensures Concat(LineGroups(SplitOn(text, '\n'))) == SplitOn(text, '\n')
    ensures IsHeadingPartition(LineGroups(SplitOn(text, '\n')))
    ensures var sections := SectionsOf(LineGroups(SplitOn(text, '\n')));
      DetectSectionsOf(text) == if sections == [] then [Section("Main Content", text)] else sections
  {
    FinishedSectionsCoverBody(SplitOn(text, '\n'));
    LineGroupsPartition(SplitOn(text, '\n'));
    FinishFollowsGroups(SplitOn(text, '\n'));
  }

  /** The finished sections hold, between them, exactly the body lines, each non-blank
      and titled by a heading or "Introduction". */
  lemma FinishedSectionsCoverBody(lines: seq<string>)
    ensures BodyText(lines) == [] ==> Finish(Scan(lines)) == []
    ensures BodyText(lines) != [] ==>
              && Contents(Finish(Scan(lines))) == BodyText(lines)
              && forall k :: 0 <= k < |Finish(Scan(lines))| ==>
                   Strip(Finish(Scan(lines))[k].content) != [] && IsTitle(Finish(Scan(lines))[k].title)
  {
    var st := Scan(lines);
    ScanKeepsInvariant(lines);
    var fin := Finish(st);
    if Strip(st.current.content) == [] {
      StripEmptyIffBlank(st.current.content);
      assert st.current.content == [];
      assert Contents(fin) == BodyText(lines);
    }
    if fin != [] {
      assert Strip(fin[|fin| - 1].content) != [];
      assert fin[|fin| - 1].content != [];
    }
  }

  // ---------------------------------------------------------------------------
  // detect_sections as a partition of the lines at the headings

  /** A raw line that detect_sections takes for a heading once it is stripped. */
  predicate IsHeadingLine(raw: string) {
    Strip(raw) != [] && IsHeading(Strip(raw))
  }

  /** The lines cut before every heading line: a leading group without headings, then
      one group per heading line, starting with it. */
  function LineGroups(lines: seq<string>): (g: seq<seq<string>>)
    ensures |g| >= 1
  {
    if lines == [] then [[]]
    else
      var g := LineGroups(lines[..|lines| - 1]);
      var raw := lines[|lines| - 1];
      if IsHeadingLine(raw) then g + [[raw]] else g[..|g| - 1] + [g[|g| - 1] + [raw]]
  }

  /** The groups are a partition of the lines: together they are the lines, in order;
      every group after the first starts with a heading line, and no other line of any
      group is one. */
  predicate IsHeadingPartition(gs: seq<seq<string>>) {
    && (forall i :: 0 < i < |gs| ==> gs[i] != [])
    && (forall i, k :: 0 <= i < |gs| && 0 <= k < |gs[i]| ==>
          (IsHeadingLine(gs[i][k]) <==> (i > 0 && k == 0)))
  }

  lemma {:induction false} LineGroupsPartition(lines: seq<string>)
    ensures Concat(LineGroups(lines)) == lines
    ensures IsHeadingPartition(LineGroups(lines))
  {
    if lines != [] {
      var init := lines[..|lines| - 1];
      var raw := lines[|lines| - 1];
      LineGroupsPartition(init);
      assert lines == init + [raw];
      if IsHeadingLine(raw) {
        HeadingOpensGroup(LineGroups(init), raw);
      } else {
        BodyLineJoinsGroup(LineGroups(init), raw);
      }
    }
  }

  lemma HeadingOpensGroup(g: seq<seq<string>>, raw: string)
    requires |g| >= 1 && IsHeadingPartition(g) && IsHeadingLine(raw)
    ensures Concat(g + [[raw]]) == Concat(g) + [raw]
    ensures IsHeadingPartition(g + [[raw]])
  {
    var g' := g + [[raw]];
    assert g'[..|g'| - 1] == g;
    forall i, k | 0 <= i < |g'| && 0 <= k < |g'[i]|
      ensures IsHeadingLine(g'[i][k]) <==> (i > 0 && k == 0)
    {
      NewGroupLine(g, raw, i, k);
    }
  }

  lemma NewGroupLine(g: seq<seq<string>>, raw: string, i: nat, k: nat)
    requires i < |g + [[raw]]| && k < |(g + [[raw]])[i]|
    ensures (g + [[raw]])[i][k] == if i == |g| then raw else g[i][k]
    ensures i == |g| ==> k == 0
  {
  }

  lemma BodyLineJoinsGroup(g: seq<seq<string>>, raw: string)
    requires |g| >= 1 && IsHeadingPartition(g) && !IsHeadingLine(raw)
    ensures var n := |g| - 1;
      Concat(g[..n] + [g[n] + [raw]]) == Concat(g) + [raw]
    ensures var n := |g| - 1;
      IsHeadingPartition(g[..n] + [g[n] + [raw]])
  {
    var n := |g| - 1;
    ConcatExtendLast(g, raw);
    var g' := g[..n] + [g[n] + [raw]];
    forall i, k | 0 <= i < |g'| && 0 <= k < |g'[i]|
      ensures IsHeadingLine(g'[i][k]) <==> (i > 0 && k == 0)
    {
      ExtendedLastLine(g, raw, i, k);
      if i == n && k == |g[n]| {
        assert n > 0 ==> g[n] != [];
      }
    }
  }

  lemma ExtendedLastLine(g: seq<seq<string>>, raw: string, i: nat, k: nat)
    requires |g| >= 1
    requires var g' := g[..|g| - 1] + [g[|g| - 1] + [raw]]; i < |g'| && k < |g'[i]|
    ensures var n := |g| - 1;
      var g' := g[..n] + [g[n] + [raw]];
      g'[i][k] == if i == n && k == |g[n]| then raw else g[i][k]
  {
  }

  lemma ConcatExtendLast(g: seq<seq<string>>, raw: string)
    requires |g| >= 1
    ensures var n := |g| - 1;
      Concat(g[..n] + [g[n] + [raw]]) == Concat(g) + [raw]
  {
    var n := |g| - 1;
    var g' := g[..n] + [g[n] + [raw]];
    assert g'[..|g'| - 1] == g[..n] == g[..|g| - 1];
  }

  /** The section a group of lines makes: titled by its heading line, stripped, or
      "Introduction" for the leading group, holding the group's body lines. */
  function SectionOf(group: seq<string>): Section {
    Section(if group != [] && IsHeadingLine(group[0]) then Strip(group[0]) else "Introduction",
            BodyText(group))
  }

  /** The sections of the groups whose body is not blank, in order. */
  function SectionsOf(gs: seq<seq<string>>): seq<Section> {
    if gs == [] then []
    else
      SectionsOf(gs[..|gs| - 1])
      + (if Strip(BodyText(gs[|gs| - 1])) != [] then [SectionOf(gs[|gs| - 1])] else [])
  }

  /** The scan has saved the sections of all groups but the last and is filling the
      last one. */
  lemma {:induction false} ScanFollowsGroups(lines: seq<string>)
    ensures var g := LineGroups(lines);
      Scan(lines) == ScanState(SectionsOf(g[..|g| - 1]), SectionOf(g[|g| - 1]))
  {
    if lines != [] {
      var init := lines[..|lines| - 1];
      var raw := lines[|lines| - 1];
      ScanFollowsGroups(init);
      if IsHeadingLine(raw) {
        ScanHeadingStep(LineGroups(init), raw);
      } else {
        ScanBodyStep(LineGroups(init), raw);
      }
    }
  }

  lemma ScanHeadingStep(g: seq<seq<string>>, raw: string)
    requires |g| >= 1 && IsHeadingLine(raw)
    ensures var st := ScanState(SectionsOf(g[..|g| - 1]), SectionOf(g[|g| - 1]));
      Step(st, raw) == ScanState(SectionsOf(g), SectionOf([raw]))
  {
    assert g[..|g|] == g;
    HeadingOpensSection(raw);
  }

  /** A heading line alone makes an empty section titled by it. */
  lemma HeadingOpensSection(raw: string)
    requires IsHeadingLine(raw)
    ensures SectionOf([raw]) == Section(Strip(raw), "")
  {
    assert BodyText([raw]) == BodyText([raw][..0]);
  }

  lemma ScanBodyStep(g: seq<seq<string>>, raw: string)
    requires |g| >= 1 && !IsHeadingLine(raw)
    ensures var n := |g| - 1;
      var st := ScanState(SectionsOf(g[..n]), SectionOf(g[n]));
      Step(st, raw) == ScanState(SectionsOf(g[..n]), SectionOf(g[n] + [raw]))
  {
    BodyLineExtendsSection(g[|g| - 1], raw);
  }

  /** A line that is not a heading leaves the title of its group alone and adds its
      stripped text, if any, to the body. */
  lemma BodyLineExtendsSection(group: seq<string>, raw: string)
    requires !IsHeadingLine(raw)
    ensures SectionOf(group + [raw]).title == SectionOf(group).title
    ensures SectionOf(group + [raw]).content ==
              SectionOf(group).content + (if Strip(raw) != [] then Strip(raw) + " " else [])
  {
    var last := group + [raw];
    assert last[..|last| - 1] == group;
    if group != [] {
      assert last[0] == group[0];
    }
  }

  /** Once the last group is closed, the scan has the sections of all groups. */
  lemma FinishFollowsGroups(lines: seq<string>)
    ensures Finish(Scan(lines)) == SectionsOf(LineGroups(lines))
  {
    var g := LineGroups(lines);
    ScanFollowsGroups(lines);
    assert g[..|g|] == g;
  }

  // ---------------------------------------------------------------------------
  // split_into_chunks

  /** Where a Python slice bound lands: negative bounds count from the end, and bounds
      outside the sequence are clamped. */
  function SliceBound(x: int, n: nat): (k: nat)
    ensures k <= n
  {
    if x < 0 then (if x + n < 0 then 0 else x + n) else if x > n then n else x
  }

  /** Python's s[start:end]. */
  function PySlice<T>(s: seq<T>, start: int, end: int): seq<T> {
    var lo := SliceBound(start, |s|);
    var hi := SliceBound(end, |s|);
    if lo < hi then s[lo..hi] else []
  }

  /** range() with a step of zero raises ValueError. */
  datatype ChunkError = ZeroStep

  /** The window of chunk_size words starting at word `start`, joined by spaces. */
  function Window(words: seq<string>, start: nat, chunkSize: int): string {
    Join(PySlice(words, start, start + chunkSize), " ")
  }

  /** The k-th window start from first: first + k * step. */
  function StartOf(first: nat, k: nat, step: nat): nat {
    if k == 0 then first else StartOf(first, k - 1, step) + step
  }

  lemma {:induction false} StartOfShift(first: nat, k: nat, step: nat)
    ensures StartOf(first, k + 1, step) == StartOf(first + step, k, step)
    ensures StartOf(first, k, step) >= first
  {
    if k > 0 {
      StartOfShift(first, k - 1, step);
    }
  }

  /** The window text at each start position, as a function. */
  function WindowAt(words: seq<string>, chunkSize: int): nat -> string {
    (start: nat) => Window(words, start, chunkSize)
  }

  /** The windows at first, first + step, ... below count that are longer than MinTextLength. */
  function ChunksFrom(count: nat, first: nat, step: nat, window: nat -> string): seq<string>
    requires step > 0
    decreases count - first
  {
    if first >= count then []
    else
      var chunk := window(first);
      (if |chunk| > MinTextLength then [chunk] else []) + ChunksFrom(count, first + step, step, window)
  }

  function ChunksOf(text: string, chunkSize: int, overlap: int): Result<seq<string>, ChunkError> {
    var words := SplitWs(text);
    var step := chunkSize - overlap;
    if step == 0 then Err(ZeroStep)
    else if step < 0 then Ok([])
    else Ok(ChunksFrom(|words|, 0, step, WindowAt(words, chunkSize)))
  }

  method SplitIntoChunks(text: string, chunkSize: int, overlap: int) returns (r: Result<seq<string>, ChunkError>)
    ensures r == ChunksOf(text, chunkSize, overlap)
  {
    var words := SplitWs(text);
    var step := chunkSize - overlap;
    if step == 0 {
      return Err(ZeroStep);
    } else if step < 0 {
      return Ok([]);
    }
    var chunks := CollectChunks(|words|, step, WindowAt(words, chunkSize));
    return Ok(chunks);
  }

  /** The loop of split_into_chunks over range(0, count, step), for a positive step;
      window(i) is the text ' '.join(words[i:i + chunk_size]). */
  method CollectChunks(count: nat, step: nat, window: nat -> string) returns (chunks: seq<string>)
    requires step > 0
    ensures chunks == ChunksFrom(count, 0, step, window)
  {
    chunks := [];
    var i: nat := 0;
    while i < count
      invariant chunks + ChunksFrom(count, i, step, window) == ChunksFrom(count, 0, step, window)
      decreases count - i
    {
      var chunk := window(i);
      ChunkStep(chunks, count, i, step, window);
      if |chunk| > MinTextLength {
        chunks := chunks + [chunk];
      }
      i := i + step;
    }
  }

  /** One turn of that loop keeps the chunks so far followed by the chunks still to
      come unchanged. */
  lemma ChunkStep(chunks: seq<string>, count: nat, i: nat, step: nat, window: nat -> string)
    requires step > 0 && i < count
    ensures |window(i)| > MinTextLength ==>
      (chunks + [window(i)]) + ChunksFrom(count, i + step, step, window) == chunks + ChunksFrom(count, i, step, window)
    ensures |window(i)| <= MinTextLength ==>
      ChunksFrom(count, i + step, step, window) == ChunksFrom(count, i, step, window)
  {
    if |window(i)| > MinTextLength {
      assert ChunksFrom(count, i, step, window) == [window(i)] + ChunksFrom(count, i + step, step, window);
    }
  }

  /** c is the window at the k-th start from first, and long enough to be kept. */
  predicate IsChunkAt(count: nat, first: nat, step: nat, window: nat -> string, k: nat, c: string) {
    StartOf(first, k, step) < count && c == window(StartOf(first, k, step)) && |c| > MinTextLength
  }

  /** A kept window of split_into_chunks: the window at start number k, longer than
      min_text_length. */
  predicate IsChunk(words: seq<string>, chunkSize: int, overlap: int, k: nat, c: string) {
    chunkSize > overlap && IsChunkAt(|words|, 0, chunkSize - overlap, WindowAt(words, chunkSize), k, c)
  }

  lemma {:induction false} ChunksFromSound(count: nat, first: nat, step: nat, window: nat -> string)
    requires step > 0
    ensures forall c :: c in ChunksFrom(count, first, step, window) ==>
              exists k: nat :: IsChunkAt(count, first, step, window, k, c)
    decreases count - first
  {
    if first < count {
      var rest := ChunksFrom(count, first + step, step, window);
      ChunksFromSound(count, first + step, step, window);
      forall c | c in ChunksFrom(count, first, step, window)
        ensures exists k: nat :: IsChunkAt(count, first, step, window, k, c)
      {
        if c in rest {
          var k: nat :| IsChunkAt(count, first + step, step, window, k, c);
          StartOfShift(first, k, step);
          assert IsChunkAt(count, first, step, window, k + 1, c);
        } else {
          assert IsChunkAt(count, first, step, window, 0, c);
        }
      }
    }
  }

  lemma {:induction false} ChunksFromComplete(count: nat, first: nat, step: nat, window: nat -> string, k: nat, c: string)
    requires step > 0 && IsChunkAt(count, first, step, window, k, c)
    ensures c in ChunksFrom(count, first, step, window)
    decreases k
  {
    StartOfShift(first, k, step);
    if k > 0 {
      StartOfShift(first, k - 1, step);
      ChunksFromComplete(count, first + step, step, window, k - 1, c);
    }
  }

  /** With chunk_size >= 0, a window is the chunk_size words from its start (fewer at
      the end), and splitting the chunk again gives exactly those words. */
  lemma WindowWords(words: seq<string>, start: nat, chunkSize: int)
    requires forall i :: 0 <= i < |words| ==> IsWord(words[i])
    requires 0 <= chunkSize && start < |words|
    ensures var end := if start + chunkSize < |words| then start + chunkSize else |words|;
      SplitWs(Window(words, start, chunkSize)) == words[start..end]
    ensures |SplitWs(Window(words, start, chunkSize))| <= chunkSize
  {
    var slice := PySlice(words, start, start + chunkSize);
    SplitJoinRoundTrip(slice);
  }

  /** split_into_chunks fails exactly when chunk_size == overlap and returns nothing
      when overlap exceeds chunk_size. */
  lemma ChunksOutcome(text: string, chunkSize: int, overlap: int)
    ensures ChunksOf(text, chunkSize, overlap).Err? <==> chunkSize == overlap
    ensures chunkSize < overlap ==> ChunksOf(text, chunkSize, overlap) == Ok([])
    ensures chunkSize > overlap ==> ChunksOf(text, chunkSize, overlap).Ok?
  {
  }

  /** With chunk_size > overlap, the chunks are exactly the windows starting at the
      multiples of chunk_size - overlap below the word count that are longer than
      min_text_length. */
  lemma ChunksExact(text: string, chunkSize: int, overlap: int, chunks: seq<string>)
    requires chunkSize > overlap && ChunksOf(text, chunkSize, overlap) == Ok(chunks)
    ensures forall c :: c in chunks <==> exists k: nat :: IsChunk(SplitWs(text), chunkSize, overlap, k, c)
  {
    var words := SplitWs(text);
    var step := chunkSize - overlap;
    var window := WindowAt(words, chunkSize);
    assert chunks == ChunksFrom(|words|, 0, step, window);
    ChunksFromSound(|words|, 0, step, window);
    forall c ensures c in chunks <==> exists k: nat :: IsChunk(words, chunkSize, overlap, k, c) {
      if c in chunks {
        var k: nat :| IsChunkAt(|words|, 0, step, window, k, c);
        assert IsChunk(words, chunkSize, overlap, k, c);
      }
      if exists k: nat :: IsChunk(words, chunkSize, overlap, k, c) {
        var k: nat :| IsChunk(words, chunkSize, overlap, k, c);
        ChunksFromComplete(|words|, 0, step, window, k, c);
      }
    }
    assert forall c :: c in chunks <==> exists k: nat :: IsChunk(words, chunkSize, overlap, k, c);
    assert words == SplitWs(text);
  }

  /** With 0 <= chunk_size, every chunk holds at most chunk_size words. */
  lemma ChunksBounded(text: string, chunkSize: int, overlap: int, chunks: seq<string>)
    requires ChunksOf(text, chunkSize, overlap) == Ok(chunks) && chunkSize >= 0
    ensures forall c :: c in chunks ==> |SplitWs(c)| <= chunkSize
  {
    var words := SplitWs(text);
    var step := chunkSize - overlap;
    if step > 0 {
      var window := WindowAt(words, chunkSize);
      assert chunks == ChunksFrom(|words|, 0, step, window);
      ChunksFromSound(|words|, 0, step, window);
      forall c | c in chunks ensures |SplitWs(c)| <= chunkSize {
        var k: nat :| IsChunkAt(|words|, 0, step, window, k, c);
        WindowWords(words, StartOf(0, k, step), chunkSize);
      }
    }
  }

  // ---------------------------------------------------------------------------
  // extract_key_concepts

  const StopWords: set<string> :=
    {"the", "a", "an", "and", "or", "but", "in", "on", "at", "to", "for",
     "of", "with", "by", "from", "as", "is", "was", "are", "were", "been",
     "be", "have", "has", "had", "do", "does", "did", "will", "would",
     "could", "should", "may", "might", "can", "this", "that", "these",
     "those", "it", "its", "they", "their", "them", "we", "our", "us"}

  predicate AllLetters(w: string) {
    forall k :: 0 <= k < |w| ==> IsLetter(w[k])
  }

  /** re.findall(r'\b[a-zA-Z]{3,}\b', s): the longest runs of word characters that
      consist of three or more letters (a run with a digit or '_' in it has no letter
      run bounded by \b on both sides). */
  function ConceptWords(s: string): (r: seq<string>)
    ensures forall i :: 0 <= i < |r| ==> |r[i]| >= 3 && AllLetters(r[i])
    ensures forall i, k :: 0 <= i < |r| && 0 <= k < |r[i]| ==> r[i][k] in s
    decreases |s|
  {
    if s == [] then []
    else if !IsWordChar(s[0]) then
      var rest := ConceptWords(s[1..]);
      assert forall i, k :: 0 <= i < |rest| && 0 <= k < |rest[i]| ==> rest[i][k] in s[1..];
      rest
    else
      var n := RunEnd(s, 0, IsWordChar);
      var rest := ConceptWords(s[n..]);
      assert forall i, k :: 0 <= i < |rest| && 0 <= k < |rest[i]| ==> rest[i][k] in s[n..];
      (if n >= 3 && AllLetters(s[..n]) then [s[..n]] else []) + rest
  }

  function WithoutStopWords(words: seq<string>): seq<string> {
    if words == [] then []
    else
      WithoutStopWords(words[..|words| - 1])
      + (if words[|words| - 1] in StopWords then [] else [words[|words| - 1]])
  }

  /** The words that are counted: the concept words of the lowercased text, stop words
      dropped. */
  function CountedWords(text: string): seq<string> {
    WithoutStopWords(ConceptWords(Lower(text)))
  }

  function KeyConcepts(text: string, topN: nat): seq<string> {
    TopByCount(CountedWords(text), topN)
  }

  method ExtractKeyConcepts(text: string, topN: nat) returns (concepts: seq<string>)
    ensures concepts == KeyConcepts(text, topN)
  {
    var words := ConceptWords(Lower(text));
    var counted: seq<string> := [];
    for i := 0 to |words|
      invariant counted == WithoutStopWords(words[..i])
    {
      assert words[..i + 1][..i] == words[..i];
      if words[i] !in StopWords {
        counted := counted + [words[i]];
      }
    }
    assert words[..|words|] == words;
    var wordFreq := CountOccurrences(counted);
    var sortedWords := StableSortDesc(wordFreq);
    concepts := Items(Take(sortedWords, topN));
  }

  lemma {:induction false} WithoutStopWordsSound(words: seq<string>)
    ensures forall w :: w in WithoutStopWords(words) ==> w in words && w !in StopWords
  {
    if words != [] {
      WithoutStopWordsSound(words[..|words| - 1]);
    }
  }

  lemma LowerHasNoCapitals(s: string)
    ensures forall c :: c in Lower(s) ==> !IsUpper(c)
  {
  }

  /** The key concepts are distinct lowercase words of three or more letters, none a stop
      word, at most top_n of them (fewer only when there are fewer distinct words); their
      frequencies never increase, and words of equal frequency keep the order of their
      first occurrence. */
  lemma KeyConceptsProperties(text: string, topN: nat)
    ensures var r := KeyConcepts(text, topN);
      var ws := CountedWords(text);
      && NoDuplicates(r)
      && |r| == (if topN < |Distinct(ws)| then topN else |Distinct(ws)|)
      && (forall w :: w in r ==> w in ws && w !in StopWords && |w| >= 3
                                 && forall k :: 0 <= k < |w| ==> IsLower(w[k]))
      && (forall i, j :: 0 <= i < j < |r| ==> Count(ws, r[i]) >= Count(ws, r[j]))
      && (forall w, c :: w in ws && w !in r && c in r ==> Count(ws, w) <= Count(ws, c))
      && (forall v :: WithKeyOf(r, CountIn(ws), v) <= WithKeyOf(Distinct(ws), CountIn(ws), v))
  {
    var ws := CountedWords(text);
    var cw := ConceptWords(Lower(text));
    TopByCountProperties(ws, topN);
    WithoutStopWordsSound(cw);
    LowerHasNoCapitals(text);
    forall w | w in KeyConcepts(text, topN)
      ensures |w| >= 3 && forall k :: 0 <= k < |w| ==> IsLower(w[k])
    {
      var i :| 0 <= i < |cw| && cw[i] == w;
      forall k | 0 <= k < |w| ensures IsLower(w[k]) {
        assert w[k] in Lower(text);
      }
    }
  }

  // ---------------------------------------------------------------------------
  // _clean_text

  /** re.sub(r'\s+', ' ', s): every run of whitespace becomes one space. */
  function CollapseWhitespace(s: string): string
    decreases |s|
  {
    if s == [] then []
    else if IsSpace(s[0]) then " " + CollapseWhitespace(s[RunEnd(s, 0, IsSpace)..])
    else [s[0]] + CollapseWhitespace(s[1..])
  }

  /** s starts with a newline, a number and a newline. */
  predicate StartsWithPageNumber(s: string) {
    |s| > 0 && s[0] == '\n'
    && var e := RunEnd(s, 1, IsDigit);
       e > 1 && e < |s| && s[e] == '\n'
  }

  /** re.sub(r'\n\d+\n', '\n', s), scanning left to right without overlaps. */
  function RemovePageNumbers(s: string): string
    decreases |s|
  {
    if s == [] then []
    else if StartsWithPageNumber(s) then "\n" + RemovePageNumbers(s[RunEnd(s, 1, IsDigit) + 1..])
    else [s[0]] + RemovePageNumbers(s[1..])
  }

  /** The characters the clean-up keeps: `\w`, whitespace and . , ; : ! ? ( ) - ' " */
  predicate IsKept(c: char) {
    IsWordChar(c) || IsSpace(c)
    || c == '.' || c == ',' || c == ';' || c == ':' || c == '!' || c == '?'
    || c == '(' || c == ')' || c == '-' || c == '\'' || c == '"'
  }

  /** re.sub(r'[^\w\s.,;:!?()\-\'"]+', '', s) */
  function RemoveSpecialChars(s: string): string {
    if s == [] then [] else (if IsKept(s[0]) then [s[0]] else []) + RemoveSpecialChars(s[1..])
  }

  function CleanText(s: string): string {
    Strip(RemoveSpecialChars(RemovePageNumbers(CollapseWhitespace(s))))
  }

  /** After collapsing, the only whitespace is single spaces; in particular no newline is left. */
  lemma {:induction false} CollapsedSpacesOnly(s: string)
    ensures forall i :: 0 <= i < |CollapseWhitespace(s)| && IsSpace(CollapseWhitespace(s)[i]) ==>
              CollapseWhitespace(s)[i] == ' '
    decreases |s|
  {
    if s != [] {
      if IsSpace(s[0]) {
        CollapsedSpacesOnly(s[RunEnd(s, 0, IsSpace)..]);
      } else {
        CollapsedSpacesOnly(s[1..]);
      }
    }
  }

  /** The page-number step can only act on a newline, and the whitespace step has already
      turned every newline into a space: on the text it is given it changes nothing. */
  lemma {:induction false} RemovePageNumbersWithoutNewline(s: string)
    requires forall i :: 0 <= i < |s| ==> s[i] != '\n'
    ensures RemovePageNumbers(s) == s
  {
    if s != [] {
      RemovePageNumbersWithoutNewline(s[1..]);
    }
  }

  /** The characters a reader sees: the kept non-whitespace ones, in order. */
  function Visible(s: string): string {
    if s == [] then [] else (if !IsSpace(s[0]) && IsKept(s[0]) then [s[0]] else []) + Visible(s[1..])
  }

  lemma {:induction false} VisibleAppend(a: string, b: string)
    ensures Visible(a + b) == Visible(a) + Visible(b)
  {
    if a != [] {
      assert (a + b)[1..] == a[1..] + b;
      VisibleAppend(a[1..], b);
    } else {
      assert a + b == b;
    }
  }

  lemma {:induction false} VisibleSkipsSpaces(s: string, n: nat)
    requires n <= |s| && forall i :: 0 <= i < n ==> IsSpace(s[i])
    ensures Visible(s) == Visible(s[n..])
  {
    if n > 0 {
      VisibleSkipsSpaces(s[1..], n - 1);
      assert s[1..][n - 1..] == s[n..];
    }
  }

  lemma {:induction false} CollapseKeepsVisible(s: string)
    ensures Visible(CollapseWhitespace(s)) == Visible(s)
    decreases |s|
  {
    if s != [] {
      if IsSpace(s[0]) {
        var n := RunEnd(s, 0, IsSpace);
        CollapseKeepsVisible(s[n..]);
        VisibleSkipsSpaces(s, n);
        VisibleAppend(" ", CollapseWhitespace(s[n..]));
      } else {
        CollapseKeepsVisible(s[1..]);
        VisibleAppend([s[0]], CollapseWhitespace(s[1..]));
      }
    }
  }

  lemma {:induction false} RemoveSpecialKeepsVisible(s: string)
    ensures Visible(RemoveSpecialChars(s)) == Visible(s)
    ensures forall i :: 0 <= i < |RemoveSpecialChars(s)| ==> IsKept(RemoveSpecialChars(s)[i])
    ensures forall i :: 0 <= i < |RemoveSpecialChars(s)| ==> RemoveSpecialChars(s)[i] in s
  {
    if s != [] {
      RemoveSpecialKeepsVisible(s[1..]);
      var head := if IsKept(s[0]) then [s[0]] else [];
      VisibleAppend(head, RemoveSpecialChars(s[1..]));
      assert forall c :: c in s[1..] ==> c in s;
    }
  }

  lemma {:induction false} LStripKeepsVisible(s: string)
    ensures Visible(LStrip(s)) == Visible(s)
  {
    if s != [] && IsSpace(s[0]) {
      LStripKeepsVisible(s[1..]);
    }
  }

  lemma {:induction false} RStripKeepsVisible(s: string)
    ensures Visible(RStrip(s)) == Visible(s)
  {
    if s != [] && IsSpace(s[|s| - 1]) {
      RStripKeepsVisible(s[..|s| - 1]);
      assert s == s[..|s| - 1] + [s[|s| - 1]];
      VisibleAppend(s[..|s| - 1], [s[|s| - 1]]);
    }
  }

  /** _clean_text leaves no whitespace at either end, no whitespace other than the space
      character, only characters of the kept classes, and every visible character of the
      input, in order. */
  lemma CleanTextProperties(s: string)
    ensures var r := CleanText(s);
      && (r == [] || (!IsSpace(r[0]) && !IsSpace(r[|r| - 1])))
      && (forall i :: 0 <= i < |r| && IsSpace(r[i]) ==> r[i] == ' ')
      && (forall i :: 0 <= i < |r| ==> IsKept(r[i]))
      && Visible(r) == Visible(s)
  {
    var collapsed := CollapseWhitespace(s);
    CollapsedSpacesOnly(s);
    RemovePageNumbersWithoutNewline(collapsed);
    var filtered := RemoveSpecialChars(collapsed);
    RemoveSpecialKeepsVisible(collapsed);
    StripEnds(filtered);
    CollapseKeepsVisible(s);
    LStripKeepsVisible(filtered);
    RStripKeepsVisible(LStrip(filtered));
    var r := CleanText(s);
    forall i | 0 <= i < |r| ensures IsKept(r[i]) && (IsSpace(r[i]) ==> r[i] == ' ') {
      assert r[i] in filtered;
      var j :| 0 <= j < |filtered| && filtered[j] == r[i];
      assert filtered[j] in collapsed;
    }
  }
}
