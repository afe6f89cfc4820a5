/** `DocumentParser` from backend/services/parser.py: text cleaning, paragraph chunking
    and header-based sectioning. File and PDF reading are not part of this model. */
module Parser {
  import opened Text
  import opened Outcomes

  // ---------------------------------------------------------------------------
  //  _clean_text
  // ---------------------------------------------------------------------------

  /** `_clean_text`: empty text stays empty; otherwise the regular-expression rewriting
      (collapsing blank lines, spaces, page numbers and "Page n" lines) is the opaque step
      `rewrite`, and the result is always stripped. */
  function CleanText(text: string, rewrite: string -> string): (r: string)
    ensures text == "" ==> r == ""
    ensures IsStripped(r)
    ensures |r| <= |if text == "" then "" else rewrite(text)|
  {
    if text == "" then "" else Strip(rewrite(text))
  }

  // ---------------------------------------------------------------------------
  //  chunk_text
  // ---------------------------------------------------------------------------

  const ParagraphBreak: string := "\n\n"
  const DefaultChunkSize: int := 1000
  const DefaultOverlap: int := 200

  function Paragraphs(text: string): seq<string>
  {
    Split(text, ParagraphBreak)
  }

  /** The loop state of `chunk_text`: the chunks emitted so far and the running chunk. */
  datatype Packing = Packing(chunks: seq<string>, current: string)

  /** One pass of the paragraph loop. A chunk is emitted only when the running chunk is
      non-empty and would grow past `chunkSize`; the next running chunk is then
      `current[-overlap:] + paragraph`, with no separator. */
  function PackStep(st: Packing, paragraph: string, chunkSize: int, overlap: int): Packing
  {
    if |st.current| + |paragraph| > chunkSize && st.current != "" then
      Packing(st.chunks + [Strip(st.current)], SliceFrom(st.current, -overlap) + paragraph)
    else
      Packing(st.chunks, st.current + paragraph + ParagraphBreak)
  }

  /** The loop state after the paragraphs `ps`, in order. */
  function Pack(ps: seq<string>, chunkSize: int, overlap: int): Packing
    decreases |ps|
  {
    if ps == [] then Packing([], "")
    else PackStep(Pack(ps[..|ps| - 1], chunkSize, overlap), ps[|ps| - 1], chunkSize, overlap)
  }

  /** What `chunk_text(text, chunk_size, overlap)` returns. */
  function Chunks(text: string, chunkSize: int, overlap: int): seq<string>
  {
    if text == "" then []
    else
      var st := Pack(Paragraphs(text), chunkSize, overlap);
      if Strip(st.current) != "" then st.chunks + [Strip(st.current)] else st.chunks
  }

  /** `chunk_text` */
  method ChunkText(text: string, chunkSize: int, overlap: int) returns (chunks: seq<string>)
    ensures chunks == Chunks(text, chunkSize, overlap)
    ensures text == "" ==> chunks == []
    ensures |chunks| <= |Paragraphs(text)|
    ensures AllStripped(chunks)
  {
    if text == "" {
      return [];
    }
    var paragraphs := Split(text, ParagraphBreak);
    chunks := [];
    var current := "";
    for i := 0 to |paragraphs|
      invariant Packing(chunks, current) == Pack(paragraphs[..i], chunkSize, overlap)
    {
      PackPrefix(paragraphs, i, chunkSize, overlap);
      var paragraph := paragraphs[i];
      if |current| + |paragraph| > chunkSize && current != "" {
        chunks := chunks + [Strip(current)];
        current := SliceFrom(current, -overlap) + paragraph;
      } else {
        current := current + paragraph + ParagraphBreak;
      }
    }
    assert paragraphs[..|paragraphs|] == paragraphs;
    if Strip(current) != "" {
      chunks := chunks + [Strip(current)];
    }
    ChunkCountAndShape(text, chunkSize, overlap);
  }

  lemma PackPrefix(ps: seq<string>, i: nat, chunkSize: int, overlap: int)
    requires i < |ps|
    ensures Pack(ps[..i + 1], chunkSize, overlap) == PackStep(Pack(ps[..i], chunkSize, overlap), ps[i], chunkSize, overlap)
  {
    assert ps[..i + 1][..i] == ps[..i];
  }

  /** Facts about the loop state: nothing is emitted for the first paragraph, at most one
      chunk per later paragraph, every emitted chunk is stripped, and the running chunk
      always contains the latest paragraph. */
  lemma {:induction false} PackFacts(ps: seq<string>, chunkSize: int, overlap: int)
    ensures ps == [] ==> Pack(ps, chunkSize, overlap) == Packing([], "")
    ensures ps != [] ==> |Pack(ps, chunkSize, overlap).chunks| < |ps|
    ensures AllStripped(Pack(ps, chunkSize, overlap).chunks)
    ensures ps != [] ==> EndsWith(Pack(ps, chunkSize, overlap).current, ps[|ps| - 1])
                         || EndsWith(Pack(ps, chunkSize, overlap).current, ps[|ps| - 1] + ParagraphBreak)
    decreases |ps|
  {
    if ps != [] {
      var init := ps[..|ps| - 1];
      var p := ps[|ps| - 1];
      PackFacts(init, chunkSize, overlap);
      var st := Pack(init, chunkSize, overlap);
      var cur := Pack(ps, chunkSize, overlap).current;
      if |st.current| + |p| > chunkSize && st.current != "" {
        assert cur == SliceFrom(st.current, -overlap) + p;
        assert cur[|cur| - |p|..] == p;
      } else {
        assert cur == st.current + (p + ParagraphBreak);
        assert cur[|cur| - |p + ParagraphBreak|..] == p + ParagraphBreak;
      }
    }
  }

  predicate AllStripped(cs: seq<string>)
  {
    forall k :: 0 <= k < |cs| ==> IsStripped(cs[k])
  }

  lemma AllStrippedSnoc(cs: seq<string>, c: string)
    requires AllStripped(cs) && IsStripped(c)
    ensures AllStripped(cs + [c])
  {
  }

  /** `chunk_text` never yields more chunks than there are `"\n\n"`-separated paragraphs,
      and every chunk it yields is stripped. */
  lemma ChunkCountAndShape(text: string, chunkSize: int, overlap: int)
    ensures |Chunks(text, chunkSize, overlap)| <= |Paragraphs(text)|
    ensures AllStripped(Chunks(text, chunkSize, overlap))
  {
    if text != "" {
      var ps := Paragraphs(text);
      PackFacts(ps, chunkSize, overlap);
      var st := Pack(ps, chunkSize, overlap);
      if Strip(st.current) != "" {
        assert Chunks(text, chunkSize, overlap) == st.chunks + [Strip(st.current)];
        AllStrippedSnoc(st.chunks, Strip(st.current));
      } else {
        assert Chunks(text, chunkSize, overlap) == st.chunks;
      }
    }
  }

  /** A string containing a non-whitespace character does not strip to nothing. */
  lemma StripKeepsInk(s: string, i: nat)
    requires i < |s| && !IsSpace(s[i])
    ensures Strip(s) != ""
  {
    StripFacts(s);
  }

  /** The last piece of `s.split(sep)` is a suffix of `s`; it is empty only when `s` is
      empty or ends with the separator. */
  lemma {:induction false} SplitLast(s: string, sep: string)
    requires sep != ""
    ensures EndsWith(s, Split(s, sep)[|Split(s, sep)| - 1])
    ensures Split(s, sep)[|Split(s, sep)| - 1] == "" && s != "" ==> EndsWith(s, sep)
    decreases |s|
  {
    var parts := Split(s, sep);
    if |s| < |sep| {
      assert parts == [s];
      assert s[|s| - |s|..] == s;
    } else if s[..|sep|] == sep {
      var t := s[|sep|..];
      var rest := Split(t, sep);
      assert parts == [""] + rest;
      assert parts[|parts| - 1] == rest[|rest| - 1];
      SplitLast(t, sep);
      EndsWithSuffix(s, |sep|, rest[|rest| - 1]);
      if t == "" {
        assert s == sep;
        assert s[|s| - |sep|..] == sep;
      } else if rest[|rest| - 1] == "" {
        EndsWithSuffix(s, |sep|, sep);
      }
    } else {
      var rest := Split(s[1..], sep);
      assert parts == [[s[0]] + rest[0]] + rest[1..];
      if |rest| == 1 {
        JoinSplit(s[1..], sep);
        assert rest[0] == s[1..];
        assert parts[0] == s;
        assert s[|s| - |s|..] == s;
      } else {
        assert parts[|parts| - 1] == rest[|rest| - 1];
        SplitLast(s[1..], sep);
        EndsWithSuffix(s, 1, rest[|rest| - 1]);
        if rest[|rest| - 1] == "" {
          assert s[1..] != "";
          EndsWithSuffix(s, 1, sep);
        }
      }
    }
  }

  /** A suffix of a tail of `s` is a suffix of `s`. */
  lemma EndsWithSuffix(s: string, k: nat, x: string)
    requires k <= |s| && EndsWith(s[k..], x)
    ensures EndsWith(s, x)
  {
    assert s[|s| - |x|..] == s[k..][|s[k..]| - |x|..];
  }

  /** For cleaned text (stripped and non-empty, as `_clean_text` produces) `chunk_text`
      yields at least one chunk and the last chunk is non-empty. */
  lemma LastChunkOfCleanText(text: string, chunkSize: int, overlap: int)
    requires text != "" && IsStripped(text)
    ensures Chunks(text, chunkSize, overlap) != []
    ensures Chunks(text, chunkSize, overlap)[|Chunks(text, chunkSize, overlap)| - 1] != ""
  {
    var ps := Paragraphs(text);
    var p := ps[|ps| - 1];
    assert p != "" && p[|p| - 1] == text[|text| - 1] by {
      SplitLast(text, ParagraphBreak);
    }
    var st := Pack(ps, chunkSize, overlap);
    assert EndsWith(st.current, p) || EndsWith(st.current, p + ParagraphBreak) by {
      PackFacts(ps, chunkSize, overlap);
    }
    assert Strip(st.current) != "" by {
      LastParagraphKeepsInk(st.current, p);
    }
    assert Chunks(text, chunkSize, overlap) == st.chunks + [Strip(st.current)];
  }

  /** A running chunk that ends with a paragraph whose last character is not whitespace
      (possibly followed by the paragraph break) does not strip to nothing. */
  lemma LastParagraphKeepsInk(cur: string, p: string)
    requires p != "" && !IsSpace(p[|p| - 1])
    requires EndsWith(cur, p) || EndsWith(cur, p + ParagraphBreak)
    ensures Strip(cur) != ""
  {
    if EndsWith(cur, p) {
      assert cur[|cur| - 1] == p[|p| - 1];
      StripKeepsInk(cur, |cur| - 1);
    } else {
      assert cur[|cur| - |p| - 2..] == p + ParagraphBreak;
      assert cur[|cur| - 3] == p[|p| - 1];
      StripKeepsInk(cur, |cur| - 3);
    }
  }

  /** Intermediate chunks can be empty, and then so can the last one: a blank paragraph
      break with a small chunk size emits a blank chunk, although the input is not empty. */
  lemma BlankChunkExample()
    ensures Chunks(ParagraphBreak, 1, 200) == [""]
  {
    BreakParagraphs();
    BreakIsBlank();
    BreakPacks(1, 200);
  }

  /** Two empty paragraphs with a chunk size below 2 and an overlap of at least 2: the
      second one flushes the (blank) running chunk left by the first. */
  lemma BreakPacks(chunkSize: int, overlap: int)
    requires chunkSize < 2 && overlap >= 2
    ensures Pack(["", ""], chunkSize, overlap) == Packing([""], ParagraphBreak)
  {
    EmptyParagraphsPack(["", ""], chunkSize, overlap);
  }

  /** `BreakPacks` for any list of two empty paragraphs, one loop pass at a time. */
  lemma EmptyParagraphsPack(ps: seq<string>, chunkSize: int, overlap: int)
    requires |ps| == 2 && ps[0] == "" && ps[1] == ""
    requires chunkSize < 2 && overlap >= 2
    ensures Pack(ps, chunkSize, overlap) == Packing([""], ParagraphBreak)
  {
    var init := ps[..1];
    assert ps == init + [""];
    assert init == [] + [""];
    PackSnoc([], "", chunkSize, overlap);
    FirstEmptyParagraph(chunkSize, overlap);
    PackSnoc(init, "", chunkSize, overlap);
    SecondEmptyParagraph(chunkSize, overlap);
  }

  /** Packing one more paragraph is one more pass of the loop. */
  lemma PackSnoc(init: seq<string>, paragraph: string, chunkSize: int, overlap: int)
    ensures Pack(init + [paragraph], chunkSize, overlap) == PackStep(Pack(init, chunkSize, overlap), paragraph, chunkSize, overlap)
  {
    assert (init + [paragraph])[..|init|] == init;
  }

  /** A first empty paragraph only appends the paragraph break. */
  lemma FirstEmptyParagraph(chunkSize: int, overlap: int)
    ensures PackStep(Packing([], ""), "", chunkSize, overlap) == Packing([], ParagraphBreak)
  {
    assert "" + "" + ParagraphBreak == ParagraphBreak;
  }

  /** A second empty paragraph, with a small chunk size, emits the blank running chunk. */
  lemma SecondEmptyParagraph(chunkSize: int, overlap: int)
    requires chunkSize < 2 && overlap >= 2
    ensures PackStep(Packing([], ParagraphBreak), "", chunkSize, overlap) == Packing([""], ParagraphBreak)
  {
    BreakIsBlank();
    assert SliceFrom(ParagraphBreak, -overlap) + "" == ParagraphBreak;
  }

  /** A lone paragraph break separates two empty paragraphs. */
  lemma BreakParagraphs()
    ensures Paragraphs(ParagraphBreak) == ["", ""]
  {
    assert ParagraphBreak[..|ParagraphBreak|] == ParagraphBreak;
    assert ParagraphBreak[|ParagraphBreak|..] == "";
  }

  /** A paragraph break is blank. */
  lemma BreakIsBlank()
    ensures Strip(ParagraphBreak) == ""
  {
    assert IsSpace(ParagraphBreak[0]) && IsSpace(ParagraphBreak[1]);
    StripFacts(ParagraphBreak);
  }

  function TotalLength(ps: seq<string>): nat
  {
    if ps == [] then 0 else TotalLength(ps[..|ps| - 1]) + |ps[|ps| - 1]|
  }

  /** `part` occurs as a contiguous piece of `whole`: some prefix of `whole` ends with it. */
  predicate Occurs(part: string, whole: string)
  {
    exists k :: 0 <= k <= |whole| && EndsWith(whole[..k], part)
  }

  /** With `overlap = 0` one pass of the loop only extends the running chunk. */
  lemma OverlapZeroStep(st: Packing, paragraph: string, chunkSize: int)
    ensures st.current <= PackStep(st, paragraph, chunkSize, 0).current
  {
    var next := PackStep(st, paragraph, chunkSize, 0).current;
    if |st.current| + |paragraph| > chunkSize && st.current != "" {
      assert next == st.current + paragraph;
    } else {
      assert next == st.current + (paragraph + ParagraphBreak);
    }
  }

  /** With `overlap = 0` the running chunk after any prefix of the paragraphs is a prefix
      of the running chunk after all of them. */
  lemma {:induction false} OverlapZeroPrefixes(ps: seq<string>, k: nat, chunkSize: int)
    requires k <= |ps|
    ensures Pack(ps[..k], chunkSize, 0).current <= Pack(ps, chunkSize, 0).current
    decreases |ps|
  {
    if k == |ps| {
      assert ps[..k] == ps;
    } else {
      var init := ps[..|ps| - 1];
      assert init[..k] == ps[..k];
      OverlapZeroPrefixes(init, k, chunkSize);
      OverlapZeroStep(Pack(init, chunkSize, 0), ps[|ps| - 1], chunkSize);
    }
  }

  /** With `overlap = 0` paragraph `i` still occurs in the running chunk after all of `ps`. */
  lemma ParagraphOccurs(ps: seq<string>, i: nat, chunkSize: int)
    requires i < |ps|
    ensures Occurs(ps[i], Pack(ps, chunkSize, 0).current)
  {
    var pre := ps[..i + 1];
    var before := Pack(pre, chunkSize, 0).current;
    var cur := Pack(ps, chunkSize, 0).current;
    assert before <= cur by {
      OverlapZeroPrefixes(ps, i + 1, chunkSize);
    }
    assert EndsWith(before, ps[i]) || EndsWith(before, ps[i] + ParagraphBreak) by {
      PackFacts(pre, chunkSize, 0);
      assert pre[|pre| - 1] == ps[i];
    }
    EndsWithInPrefix(before, cur, ps[i]);
  }

  /** A piece that ends a prefix of `whole`, or ends it up to a paragraph break, occurs in it. */
  lemma EndsWithInPrefix(before: string, whole: string, part: string)
    requires before <= whole
    requires EndsWith(before, part) || EndsWith(before, part + ParagraphBreak)
    ensures Occurs(part, whole)
  {
    if EndsWith(before, part) {
      assert whole[..|before|] == before;
    } else {
      var k := |before| - |ParagraphBreak|;
      assert whole[..k] == before[..k];
      assert before[..k][k - |part|..] == before[|before| - |part + ParagraphBreak|..][..|part|];
    }
  }

  /** With `overlap = 0`, `current[-0:]` is the whole running chunk, so nothing is ever
      dropped: every paragraph read so far occurs in the running chunk, and the running
      chunk is at least as long as all of them together. */
  lemma {:induction false} OverlapZeroKeepsEverything(ps: seq<string>, chunkSize: int)
    ensures |Pack(ps, chunkSize, 0).current| >= TotalLength(ps)
    ensures forall i :: 0 <= i < |ps| ==> Occurs(ps[i], Pack(ps, chunkSize, 0).current)
    decreases |ps|
  {
    if ps != [] {
      OverlapZeroKeepsEverything(ps[..|ps| - 1], chunkSize);
    }
    forall i | 0 <= i < |ps|
      ensures Occurs(ps[i], Pack(ps, chunkSize, 0).current)
    {
      ParagraphOccurs(ps, i, chunkSize);
    }
  }

  // ---------------------------------------------------------------------------
  //  extract_sections
  // ---------------------------------------------------------------------------

  /** The length of the leading run of characters satisfying `p`. */
  function RunLength(s: string, p: char -> bool): (n: nat)
    ensures n <= |s|
    ensures forall i :: 0 <= i < n ==> p(s[i])
    ensures n < |s| ==> !p(s[n])
  {
    if s == [] || !p(s[0]) then 0 else 1 + RunLength(s[1..], p)
  }

  /** `^([A-Z][A-Z\s]+)$`: an all-capitals line. */
  predicate IsCapsHeader(line: string)
  {
    |line| >= 2 && IsUpperAscii(line[0])
    && forall i :: 1 <= i < |line| ==> IsUpperAscii(line[i]) || IsSpace(line[i])
  }

  /** `^(\d+\.?\s+[A-Z][^.]*?)$`: digits, an optional dot, whitespace, a capital, and no
      further dot. The match is unique, so the runs below are taken greedily. */
  predicate IsNumberedHeader(line: string)
  {
    var d := RunLength(line, IsDigitAscii);
    var i := if d < |line| && line[d] == '.' then d + 1 else d;
    var w := RunLength(line[i..], IsSpace);
    d > 0 && w > 0 && i + w < |line| && IsUpperAscii(line[i + w])
    && forall k :: i + w < k < |line| ==> line[k] != '.'
  }

  /** `^([A-Z][^.]*?):$`: a capital, no dot, and a final colon. */
  predicate IsColonHeader(line: string)
  {
    |line| >= 2 && IsUpperAscii(line[0]) && line[|line| - 1] == ':'
    && forall k :: 1 <= k < |line| - 1 ==> line[k] != '.'
  }

  /** A stripped line is a header when any of the three patterns matches it. */
  predicate IsHeader(line: string)
  {
    IsCapsHeader(line) || IsNumberedHeader(line) || IsColonHeader(line)
  }

  /** One entry of the result: `{'title': ..., 'content': ...}`. */
  datatype Section = Section(title: string, content: string)

  /** A header line with the body lines collected under it. */
  datatype Group = Group(title: string, lines: seq<string>)

  /** The loop state of `extract_sections`: the sections saved so far, `current_section`
      and `current_content`. */
  datatype Scan = Scan(done: seq<Group>, open: Option<string>, body: seq<string>)

  /** One pass of the line loop: blank lines are skipped, a header saves the open section
      (if any) and opens a new one, any other line joins the open body. */
  function ScanStep(st: Scan, raw: string): Scan
  {
    var line := Strip(raw);
    if line == "" then st
    else if IsHeader(line) then
      Scan(st.done + (if st.open.Some? then [Group(st.open.value, st.body)] else []), Some(line), [])
    else
      Scan(st.done, st.open, st.body + [line])
  }

  function ScanLines(ls: seq<string>): Scan
    decreases |ls|
  {
    if ls == [] then Scan([], None, []) else ScanStep(ScanLines(ls[..|ls| - 1]), ls[|ls| - 1])
  }

  /** The groups `extract_sections` reports, before their bodies are joined. */
  function GroupsOf(ls: seq<string>): seq<Group>
  {
    var st := ScanLines(ls);
    st.done + (if st.open.Some? then [Group(st.open.value, st.body)] else [])
  }

  function Render(g: Group): Section
  {
    Section(g.title, Join(g.lines, LineBreak))
  }

  function RenderAll(gs: seq<Group>): (r: seq<Section>)
    ensures |r| == |gs|
    decreases |gs|
  {
    if gs == [] then [] else RenderAll(gs[..|gs| - 1]) + [Render(gs[|gs| - 1])]
  }

  /** What `extract_sections(text)` returns. */
  function Sections(text: string): seq<Section>
  {
    RenderAll(GroupsOf(Lines(text)))
  }

  const LineBreak: string := "\n"

  /** The lines `extract_sections` scans. */
  function Lines(text: string): seq<string>
  {
    Split(text, LineBreak)
  }

  /** `extract_sections` */
  method ExtractSections(text: string) returns (sections: seq<Section>)
    ensures sections == Sections(text)
    ensures |sections| == |Headers(Kept(Lines(text)))|
    ensures forall k :: 0 <= k < |sections| ==> sections[k].title == Headers(Kept(Lines(text)))[k]
  {
    var lines := Split(text, LineBreak);
    sections := [];
    var currentSection: Option<string> := None;
    var currentContent: seq<string> := [];
    ghost var saved: seq<Group> := [];
    for i := 0 to |lines|
      invariant ScanLines(lines[..i]) == Scan(saved, currentSection, currentContent)
      invariant sections == RenderAll(saved)
    {
      ScanPrefix(lines, i);
      var line := Strip(lines[i]);
      if line == "" {
        continue;
      }
      if IsHeader(line) {
        if currentSection.Some? {
          sections := sections + [Section(currentSection.value, Join(currentContent, LineBreak))];
          RenderAllSnoc(saved, Group(currentSection.value, currentContent));
          saved := saved + [Group(currentSection.value, currentContent)];
        }
        currentSection := Some(line);
        currentContent := [];
      } else {
        currentContent := currentContent + [line];
      }
    }
    ScanWhole(lines);
    assert lines == Lines(text);
    if currentSection.Some? {
      sections := sections + [Section(currentSection.value, Join(currentContent, LineBreak))];
    }
    FinishScan(text, saved, currentSection, currentContent);
    SectionTitlesInOrder(text);
  }

  /** After the last line the open section, if any, is saved as well. */
  lemma FinishScan(text: string, saved: seq<Group>, open: Option<string>, body: seq<string>)
    requires ScanLines(Lines(text)) == Scan(saved, open, body)
    ensures Sections(text) == RenderAll(saved) + (if open.Some? then [Section(open.value, Join(body, LineBreak))] else [])
  {
    if open.Some? {
      RenderAllSnoc(saved, Group(open.value, body));
    } else {
      assert GroupsOf(Lines(text)) == saved;
    }
  }

  lemma RenderAllSnoc(gs: seq<Group>, g: Group)
    ensures RenderAll(gs + [g]) == RenderAll(gs) + [Section(g.title, Join(g.lines, LineBreak))]
  {
    assert (gs + [g])[..|gs|] == gs;
  }

  lemma ScanWhole(ls: seq<string>)
    ensures ScanLines(ls[..|ls|]) == ScanLines(ls)
  {
    assert ls[..|ls|] == ls;
  }

  lemma {:induction false} RenderAllTitles(gs: seq<Group>)
    ensures forall k :: 0 <= k < |gs| ==> RenderAll(gs)[k].title == gs[k].title
    decreases |gs|
  {
    if gs != [] {
      RenderAllTitles(gs[..|gs| - 1]);
    }
  }

  /** `extract_sections` yields one section per header line, in input order, titled by
      that stripped header line. */
  lemma SectionTitlesInOrder(text: string)
    ensures |Sections(text)| == |Headers(Kept(Lines(text)))|
    ensures forall k :: 0 <= k < |Sections(text)| ==> Sections(text)[k].title == Headers(Kept(Lines(text)))[k]
  {
    var gs := GroupsOf(Lines(text));
    SectionTitles(Lines(text));
    TitlesLength(gs);
    RenderAllTitles(gs);
  }

  lemma ScanPrefix(ls: seq<string>, i: nat)
    requires i < |ls|
    ensures ScanLines(ls[..i + 1]) == ScanStep(ScanLines(ls[..i]), ls[i])
  {
    assert ls[..i + 1][..i] == ls[..i];
  }

  /** The non-blank lines, stripped, in order. */
  function Kept(ls: seq<string>): seq<string>
    decreases |ls|
  {
    if ls == [] then []
    else
      var line := Strip(ls[|ls| - 1]);
      Kept(ls[..|ls| - 1]) + (if line == "" then [] else [line])
  }

  /** The header lines among `xs`, in order. */
  function Headers(xs: seq<string>): seq<string>
    decreases |xs|
  {
    if xs == [] then []
    else Headers(xs[..|xs| - 1]) + (if IsHeader(xs[|xs| - 1]) then [xs[|xs| - 1]] else [])
  }

  /** `xs` from its first header on; empty when there is none. */
  function FromFirstHeader(xs: seq<string>): seq<string>
    decreases |xs|
  {
    if xs == [] then [] else if IsHeader(xs[0]) then xs else FromFirstHeader(xs[1..])
  }

  /** Each group laid out again as its header line followed by its body lines. */
  function Flatten(gs: seq<Group>): seq<string>
    decreases |gs|
  {
    if gs == [] then [] else Flatten(gs[..|gs| - 1]) + [gs[|gs| - 1].title] + gs[|gs| - 1].lines
  }

  function Titles(gs: seq<Group>): seq<string>
    decreases |gs|
  {
    if gs == [] then [] else Titles(gs[..|gs| - 1]) + [gs[|gs| - 1].title]
  }

  lemma {:induction false} FromFirstHeaderSnoc(xs: seq<string>, x: string)
    ensures FromFirstHeader(xs + [x]) ==
      if FromFirstHeader(xs) == [] then (if IsHeader(x) then [x] else []) else FromFirstHeader(xs) + [x]
    decreases |xs|
  {
    if xs == [] {
    } else if IsHeader(xs[0]) {
    } else {
      assert (xs + [x])[1..] == xs[1..] + [x];
      FromFirstHeaderSnoc(xs[1..], x);
    }
  }

  lemma FlattenSnoc(gs: seq<Group>, g: Group)
    ensures Flatten(gs + [g]) == Flatten(gs) + [g.title] + g.lines
    ensures Titles(gs + [g]) == Titles(gs) + [g.title]
  {
    assert (gs + [g])[..|gs|] == gs;
  }

  /** The invariant of the line loop, stated against the stripped non-blank lines. */
  predicate ScanAgrees(st: Scan, kept: seq<string>)
  {
    && (st.open.None? ==> st.done == [] && FromFirstHeader(kept) == [])
    && Titles(st.done) + (if st.open.Some? then [st.open.value] else []) == Headers(kept)
    && Flatten(st.done) + (if st.open.Some? then [st.open.value] + st.body else []) == FromFirstHeader(kept)
    && (st.open.Some? ==> forall j :: 0 <= j < |st.body| ==> st.body[j] != "" && !IsHeader(st.body[j]))
    && (forall k, j :: 0 <= k < |st.done| && 0 <= j < |st.done[k].lines| ==>
          st.done[k].lines[j] != "" && !IsHeader(st.done[k].lines[j]))
  }

  lemma HeadersSnoc(xs: seq<string>, x: string)
    ensures Headers(xs + [x]) == Headers(xs) + (if IsHeader(x) then [x] else [])
  {
    assert (xs + [x])[..|xs|] == xs;
  }

  lemma KeptSnoc(ls: seq<string>)
    requires ls != []
    ensures Kept(ls) == Kept(ls[..|ls| - 1]) + (if Strip(ls[|ls| - 1]) == "" then [] else [Strip(ls[|ls| - 1])])
  {
  }

  /** A header line closes the open section and opens a new one. */
  lemma ScanHeaderAgrees(st: Scan, kept: seq<string>, line: string)
    requires ScanAgrees(st, kept)
    requires line != "" && IsHeader(line)
    ensures ScanAgrees(Scan(st.done + (if st.open.Some? then [Group(st.open.value, st.body)] else []), Some(line), []), kept + [line])
  {
    FromFirstHeaderSnoc(kept, line);
    HeadersSnoc(kept, line);
    if st.open.Some? {
      FlattenSnoc(st.done, Group(st.open.value, st.body));
    }
  }

  /** A non-header line joins the open body, or is dropped with the preamble. */
  lemma ScanBodyAgrees(st: Scan, kept: seq<string>, line: string)
    requires ScanAgrees(st, kept)
    requires line != "" && !IsHeader(line)
    ensures ScanAgrees(Scan(st.done, st.open, st.body + [line]), kept + [line])
  {
    FromFirstHeaderSnoc(kept, line);
    HeadersSnoc(kept, line);
  }

  lemma {:induction false} ScanLinesAgrees(ls: seq<string>)
    ensures ScanAgrees(ScanLines(ls), Kept(ls))
    decreases |ls|
  {
    if ls != [] {
      var init := ls[..|ls| - 1];
      ScanLinesAgrees(init);
      var st := ScanLines(init);
      var raw := ls[|ls| - 1];
      var line := Strip(raw);
      KeptSnoc(ls);
      assert ScanLines(ls) == ScanStep(st, raw);
      if line == "" {
        assert Kept(ls) == Kept(init) + [] == Kept(init);
      } else if IsHeader(line) {
        ScanHeaderAgrees(st, Kept(init), line);
      } else {
        ScanBodyAgrees(st, Kept(init), line);
      }
    }
  }

  /** `extract_sections` yields one section per header line, in input order, each titled
      by the stripped header line. */
  lemma SectionTitles(ls: seq<string>)
    ensures Titles(GroupsOf(ls)) == Headers(Kept(ls))
    ensures |GroupsOf(ls)| == |Headers(Kept(ls))|
  {
    ScanLinesAgrees(ls);
    var st := ScanLines(ls);
    if st.open.Some? {
      FlattenSnoc(st.done, Group(st.open.value, st.body));
    }
    TitlesLength(GroupsOf(ls));
  }

  lemma {:induction false} TitlesLength(gs: seq<Group>)
    ensures |Titles(gs)| == |gs|
    ensures forall k :: 0 <= k < |gs| ==> Titles(gs)[k] == gs[k].title
    decreases |gs|
  {
    if gs != [] {
      TitlesLength(gs[..|gs| - 1]);
    }
  }

  /** Laid out again, the sections give back exactly the stripped non-blank lines from the
      first header on: lines before the first header are dropped, and every other line
      lands in the section of the nearest header above it. */
  lemma SectionsCoverLines(ls: seq<string>)
    ensures Flatten(GroupsOf(ls)) == FromFirstHeader(Kept(ls))
  {
    ScanLinesAgrees(ls);
    var st := ScanLines(ls);
    if st.open.Some? {
      FlattenSnoc(st.done, Group(st.open.value, st.body));
    }
  }

  /** No section body holds a blank line or a header line. */
  lemma SectionBodiesPlain(ls: seq<string>)
    ensures forall k, j :: 0 <= k < |GroupsOf(ls)| && 0 <= j < |GroupsOf(ls)[k].lines| ==>
              GroupsOf(ls)[k].lines[j] != "" && !IsHeader(GroupsOf(ls)[k].lines[j])
  {
    ScanLinesAgrees(ls);
    var st := ScanLines(ls);
    var gs := GroupsOf(ls);
    if st.open.Some? {
      var g := Group(st.open.value, st.body);
      assert gs == st.done + [g];
      forall k, j | 0 <= k < |gs| && 0 <= j < |gs[k].lines|
        ensures gs[k].lines[j] != "" && !IsHeader(gs[k].lines[j])
      {
        if k < |st.done| {
          assert gs[k] == st.done[k];
        } else {
          assert gs[k] == g;
        }
      }
    }
  }
}
