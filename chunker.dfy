/** `chunkMarkdown` of src/services/libraryLoader.ts: a library file is
    normalised, split into sections at its markdown headings, and every
    section is cut into chunks of at most `maxChunkSize` characters, each
    cut preferring a paragraph break, then a sentence break, in the second
    half of the window. */
module Chunker {
  import opened Wrappers
  import opened Text
  import opened Types
  import opened Markup

  /** The chunk size used when the caller gives none. */
  const DefaultChunkSize: nat := 2600

  /** Position `p` is where `^` matches in multiline mode. */
  predicate AtLineStart(s: string, p: nat) {
    p == 0 || (p <= |s| && IsLineTerminator(s[p - 1]))
  }

  function IsHash(c: char): bool {
    c == '#'
  }

  /** A match of `^#{1,6}\s+.*$`: where it starts, where the text after
      the hashes and the whitespace following them starts, and where the
      match ends. */
  datatype HeadingMatch = HeadingMatch(index: nat, textStart: nat, end: nat)

  /** The match of `/^#{1,6}\s+.*$/m` tried at index `p`. The `\s+` may run
      over line breaks; the heading text then comes from the first line
      that is not blank. */
  function HeadingAt(s: string, p: nat): (r: Option<HeadingMatch>)
    ensures r.Some? ==> r.value.index == p && p < r.value.textStart <= r.value.end <= |s|
    ensures r.Some? ==> (r.value.end == |s| || IsLineTerminator(s[r.value.end]))
    ensures r.Some? ==> AtLineStart(s, p) && s[p] == '#'
  {
    if p < |s| && AtLineStart(s, p) then
      var h := RunEnd(s, p, IsHash);
      if 1 <= h - p <= 6 && h < |s| && IsSpace(s[h]) then
        var q := RunEnd(s, h, IsSpace);
        var e := RunEnd(s, q, NotLineTerminator);
        Some(HeadingMatch(p, q, e))
      else None
    else None
  }

  /** `match[0].replace(/^#{1,6}\s+/, '').trim()`: the heading text. */
  function Title(s: string, m: HeadingMatch): string
    requires m.textStart <= m.end <= |s|
  {
    Trim(s[m.textStart..m.end])
  }

  /** Where the `k`-th heading's section ends: where the next heading
      starts, or at the end of the text. */
  function NextIndex(s: string, hs: seq<HeadingMatch>, k: nat): nat
    requires k < |hs|
  {
    if k + 1 < |hs| then hs[k + 1].index else |s|
  }

  /** Heading matches that lie in `s` in order, each ending before the
      next begins. */
  predicate Spaced(s: string, hs: seq<HeadingMatch>) {
    && (forall k :: 0 <= k < |hs| ==> hs[k].index < hs[k].textStart <= hs[k].end <= |s|)
    && (forall k {:trigger NextIndex(s, hs, k)} :: 0 <= k < |hs| ==> hs[k].end <= NextIndex(s, hs, k))
  }

  lemma SpacedCons(s: string, m: HeadingMatch, hs: seq<HeadingMatch>)
    requires Spaced(s, hs) && m.index < m.textStart <= m.end <= |s|
    requires forall k :: 0 <= k < |hs| ==> m.end <= hs[k].index
    ensures Spaced(s, [m] + hs)
  {
    var r := [m] + hs;
    forall k | 0 <= k < |r|
      ensures r[k].index < r[k].textStart <= r[k].end <= |s| && r[k].end <= NextIndex(s, r, k)
    {
      if k > 0 {
        assert r[k] == hs[k - 1] && NextIndex(s, r, k) == NextIndex(s, hs, k - 1);
      }
    }
  }

  /** `content.matchAll(/^#{1,6}\s+.*$/gm)` from index `from` on: every
      match, the search resuming where the previous match ended. */
  function HeadingsFrom(s: string, from: nat): (r: seq<HeadingMatch>)
    requires from <= |s|
    ensures Spaced(s, r)
    ensures forall k :: 0 <= k < |r| ==> from <= r[k].index
    ensures forall k {:trigger HeadingAt(s, r[k].index)} :: 0 <= k < |r| ==> HeadingAt(s, r[k].index) == Some(r[k])
    decreases |s| - from
  {
    if from == |s| then []
    else
      match HeadingAt(s, from)
      case Some(m) =>
        var rest := HeadingsFrom(s, m.end);
        SpacedCons(s, m, rest);
        [m] + rest
      case None => HeadingsFrom(s, from + 1)
  }

  /** Position `p` lies inside one of the matches `hs`. */
  predicate Covers(hs: seq<HeadingMatch>, p: nat) {
    exists k :: 0 <= k < |hs| && hs[k].index <= p < hs[k].end
  }

  lemma HeadingsFromMatch(s: string, from: nat, m: HeadingMatch)
    requires from < |s| && HeadingAt(s, from) == Some(m)
    ensures HeadingsFrom(s, from) == [m] + HeadingsFrom(s, m.end)
  {
  }

  lemma HeadingsFromNoMatch(s: string, from: nat)
    requires from < |s| && HeadingAt(s, from).None?
    ensures HeadingsFrom(s, from) == HeadingsFrom(s, from + 1)
  {
  }

  /** Every position at which the heading expression could match is a
      match found by the scan, or lies inside one. */
  lemma {:induction false} HeadingsFromComplete(s: string, from: nat, p: nat)
    requires from <= p < |s| && HeadingAt(s, p).Some?
    ensures Covers(HeadingsFrom(s, from), p)
    decreases |s| - from
  {
    var h := HeadingAt(s, from);
    if h.Some? {
      var m := h.value;
      HeadingsFromMatch(s, from, m);
      if p >= m.end {
        HeadingsFromComplete(s, m.end, p);
      }
      CoversCons(m, HeadingsFrom(s, m.end), p);
    } else {
      assert p != from;
      HeadingsFromNoMatch(s, from);
      HeadingsFromComplete(s, from + 1, p);
    }
  }

  lemma CoversCons(m: HeadingMatch, rest: seq<HeadingMatch>, p: nat)
    requires Covers(rest, p) || m.index <= p < m.end
    ensures Covers([m] + rest, p)
  {
    var r := [m] + rest;
    if !(m.index <= p < m.end) {
      var k :| 0 <= k < |rest| && rest[k].index <= p < rest[k].end;
      assert r[k + 1] == rest[k];
    } else {
      assert r[0] == m;
    }
  }

  /** A section of the normalised text: its heading and where it lies. Its
      text is the text between `start` and `end`. */
  datatype Section = Section(heading: Option<string>, start: nat, end: nat)

  /** Where the `k`-th section should end: where the next one starts, or
      at the end of the text. */
  function NextStart(content: string, secs: seq<Section>, k: nat): nat
    requires k < |secs|
  {
    if k + 1 < |secs| then secs[k + 1].start else |content|
  }

  /** Sections that lie in `content`, each with a heading, each one ending
      where the next begins and the last one at the end of the text. */
  predicate Tiled(content: string, secs: seq<Section>) {
    && (forall k :: 0 <= k < |secs| ==> secs[k].start <= secs[k].end <= |content| && secs[k].heading.Some?)
    && (forall k {:trigger NextStart(content, secs, k)} :: 0 <= k < |secs| ==> secs[k].end == NextStart(content, secs, k))
  }

  /** The section of every heading: from the heading to the next heading,
      or to the end of the text. */
  function HeadingSections(content: string, hs: seq<HeadingMatch>): (r: seq<Section>)
    requires Spaced(content, hs)
    ensures |r| == |hs| && Tiled(content, r)
    ensures forall k :: 0 <= k < |r| ==> r[k].start == hs[k].index
  {
    var r := seq(|hs|, k requires 0 <= k < |hs| => Section(Some(Title(content, hs[k])), hs[k].index, NextIndex(content, hs, k)));
    assert forall k :: 0 <= k < |r| ==> NextStart(content, r, k) == NextIndex(content, hs, k);
    r
  }

  /** The text before the first heading forms an `"Intro"` section when
      there is no heading or the first one does not start the text. */
  predicate HasIntro(hs: seq<HeadingMatch>) {
    hs == [] || hs[0].index > 0
  }

  /** The sections `chunkMarkdown` forms from the heading matches `hs`:
      an `"Intro"` section for the text before the first heading (the whole
      text when there is no heading), then one section per heading, from
      the heading to the next one. Together they tile the whole text. */
  function Sections(content: string, hs: seq<HeadingMatch>): (r: seq<Section>)
    requires Spaced(content, hs)
    ensures |r| == (if HasIntro(hs) then 1 else 0) + |hs|
    ensures Tiled(content, r) && r[0].start == 0
  {
    if hs == [] then [Section(Some("Intro"), 0, |content|)]
    else
      var bodies := HeadingSections(content, hs);
      if hs[0].index > 0 then
        var intro := Section(Some("Intro"), 0, hs[0].index);
        TiledCons(content, intro, bodies);
        [intro] + bodies
      else bodies
  }

  /** The last section ends where the text ends. */
  lemma SectionsCover(content: string, hs: seq<HeadingMatch>)
    requires Spaced(content, hs)
    ensures var r := Sections(content, hs); r[|r| - 1].end == |content|
  {
    var r := Sections(content, hs);
    assert r[|r| - 1].end == NextStart(content, r, |r| - 1);
  }

  /** The first section is the `"Intro"` section exactly when there is
      one. */
  lemma SectionsIntro(content: string, hs: seq<HeadingMatch>)
    requires Spaced(content, hs)
    ensures HasIntro(hs) ==> Sections(content, hs)[0] == Section(Some("Intro"), 0, if hs == [] then |content| else hs[0].index)
    ensures !HasIntro(hs) ==> Sections(content, hs) == HeadingSections(content, hs)
  {
  }

  /** The section of the `k`-th heading: it starts at the heading, ends
      where the next heading starts, and is headed by the heading's text. */
  lemma HeadingSectionAt(content: string, hs: seq<HeadingMatch>, k: nat)
    requires Spaced(content, hs) && k < |hs|
    ensures HeadingSections(content, hs)[k] == Section(Some(Title(content, hs[k])), hs[k].index, NextIndex(content, hs, k))
  {
  }

  /** Which section is which: after the `"Intro"` section, if there is
      one, comes the section of each heading. */
  lemma SectionsOfHeadings(content: string, hs: seq<HeadingMatch>, k: nat)
    requires Spaced(content, hs) && k < |hs|
    ensures Sections(content, hs)[if HasIntro(hs) then 1 + k else k] == HeadingSections(content, hs)[k]
  {
    var bodies := HeadingSections(content, hs);
    if hs[0].index > 0 {
      assert Sections(content, hs) == [Section(Some("Intro"), 0, hs[0].index)] + bodies;
    } else {
      assert Sections(content, hs) == bodies;
    }
  }

  lemma TiledCons(content: string, s: Section, secs: seq<Section>)
    requires Tiled(content, secs) && s.start <= s.end <= |content| && s.heading.Some?
    requires s.end == if secs == [] then |content| else secs[0].start
    ensures Tiled(content, [s] + secs)
  {
    var r := [s] + secs;
    forall k | 0 <= k < |r|
      ensures r[k].start <= r[k].end <= |content| && r[k].heading.Some? && r[k].end == NextStart(content, r, k)
    {
      if k > 0 {
        assert r[k] == secs[k - 1] && NextStart(content, r, k) == NextStart(content, secs, k - 1);
      }
    }
  }

  /** Where the window starting at `lo` ends. */
  function TargetEnd(text: string, lo: nat, max: nat): nat
    requires lo <= |text|
  {
    lo + Min(|text| - lo, max)
  }

  /** A break `pat` lies at index `k` of window `w` and past half of `max`. */
  predicate LateBreak(w: string, pat: string, k: int, max: nat) {
    OccursAt(w, pat, k) && 2 * k > max
  }

  /** The cut `sliceIntoChunks` makes in `text` from `lo`: just after the
      last paragraph break of the window if it lies past half of `max`
      (half of `max`, not of the window), else just after the last sentence
      break under the same condition, else at the window's end. */
  function CutIndex(text: string, lo: nat, max: nat): (cut: nat)
    requires lo < |text| && 0 < max
    ensures lo < cut <= TargetEnd(text, lo, max)
  {
    var targetEnd := TargetEnd(text, lo, max);
    var w := text[lo..targetEnd];
    var pb := LastIndexOf(w, "\n\n");
    var sb := LastIndexOf(w, ". ");
    if 2 * pb > max then lo + pb + 2
    else if 2 * sb > max then lo + sb + 2
    else targetEnd
  }

  /** The cut policy: with `w` the window, the cut falls just after the
      last paragraph break of `w` when some paragraph break lies past half
      of `max`; otherwise just after the last sentence break when some
      sentence break lies past half of `max`; otherwise at the window's end. */
  lemma CutPolicy(text: string, lo: nat, max: nat)
    requires lo < |text| && 0 < max
    ensures var w := text[lo..TargetEnd(text, lo, max)];
      var cut := CutIndex(text, lo, max);
      && ((exists k :: LateBreak(w, "\n\n", k, max)) ==>
            OccursAt(w, "\n\n", cut - lo - 2) && forall k :: cut - lo - 2 < k ==> !OccursAt(w, "\n\n", k))
      && ((!exists k :: LateBreak(w, "\n\n", k, max)) && (exists k :: LateBreak(w, ". ", k, max)) ==>
            OccursAt(w, ". ", cut - lo - 2) && forall k :: cut - lo - 2 < k ==> !OccursAt(w, ". ", k))
      && ((!exists k :: LateBreak(w, "\n\n", k, max)) && (!exists k :: LateBreak(w, ". ", k, max)) ==>
            cut == TargetEnd(text, lo, max))
  {
    var w := text[lo..TargetEnd(text, lo, max)];
    var pb := LastIndexOf(w, "\n\n");
    var sb := LastIndexOf(w, ". ");
    if 2 * pb > max {
      assert LateBreak(w, "\n\n", pb, max);
    } else {
      assert forall k :: !LateBreak(w, "\n\n", k, max);
    }
    if 2 * sb > max {
      assert LateBreak(w, ". ", sb, max);
    } else {
      assert forall k :: !LateBreak(w, ". ", k, max);
    }
  }

  /** `stripHtml(rawChunk).trim()`. */
  function StripText(s: string): string {
    Trim(StripHtml(s))
  }

  /** The chunk made from the raw slice `text[lo..hi]` of a section that
      starts at `base`, unless the slice strips to nothing. Offsets count
      from the start of the normalised file. */
  function ChunkOf(file: LibraryFile, heading: Option<string>, base: nat, text: string, lo: nat, hi: nat): seq<TextChunk>
    requires lo <= hi <= |text|
  {
    var t := StripText(text[lo..hi]);
    if t == [] then [] else [TextChunk(file.id, file.name, heading, base + lo, base + hi, t)]
  }

  /** The chunks `sliceIntoChunks` makes of `text[lo..]`: the scan cuts at
      `CutIndex` and goes on from the cut, whether or not the slice gave a
      chunk. */
  function SliceChunks(file: LibraryFile, heading: Option<string>, base: nat, text: string, lo: nat, max: nat): seq<TextChunk>
    requires lo <= |text| && 0 < max
    decreases |text| - lo
  {
    if lo == |text| then []
    else
      var cut := CutIndex(text, lo, max);
      ChunkOf(file, heading, base, text, lo, cut) + SliceChunks(file, heading, base, text, cut, max)
  }

  /** One turn of the `sliceIntoChunks` loop: the chunk of the slice up to
      the cut, if any, is the next of the section's chunks. */
  lemma SliceChunksStep(file: LibraryFile, heading: Option<string>, base: nat, text: string, lo: nat, max: nat,
                        done: seq<TextChunk>, all: seq<TextChunk>)
    requires lo < |text| && 0 < max
    requires done + SliceChunks(file, heading, base, text, lo, max) == all
    ensures var cut := CutIndex(text, lo, max);
      (done + ChunkOf(file, heading, base, text, lo, cut)) + SliceChunks(file, heading, base, text, cut, max) == all
  {
    var cut := CutIndex(text, lo, max);
    var piece := ChunkOf(file, heading, base, text, lo, cut);
    var rest := SliceChunks(file, heading, base, text, cut, max);
    assert SliceChunks(file, heading, base, text, lo, max) == piece + rest;
    assert done + piece + rest == done + (piece + rest);
  }

  /** The cut of one turn of the `sliceIntoChunks` loop, computed as the
      loop body computes it. */
  method CutWindow(text: string, localStart: nat, max: nat) returns (cutIndex: nat)
    requires localStart < |text| && 0 < max
    ensures cutIndex == CutIndex(text, localStart, max)
  {
    var length := |text|;
    var remaining := length - localStart;
    var targetEnd := localStart + Min(remaining, max);
    var window := text[localStart..targetEnd];
    var paragraphBreak := LastIndexOf(window, "\n\n");
    var sentenceBreak := LastIndexOf(window, ". ");
    cutIndex := targetEnd;
    if 2 * paragraphBreak > max {
      cutIndex := localStart + paragraphBreak + 2;
    } else if 2 * sentenceBreak > max {
      cutIndex := localStart + sentenceBreak + 2;
    }
  }

  /** The rest of one turn of the `sliceIntoChunks` loop: the slice up to
      the cut is stripped and trimmed, and pushed as a chunk unless that
      leaves nothing. */
  method PushChunk(file: LibraryFile, heading: Option<string>, absoluteStart: nat, text: string,
                   localStart: nat, cutIndex: nat, chunks: seq<TextChunk>)
    returns (pushed: seq<TextChunk>)
    requires localStart <= cutIndex <= |text|
    ensures pushed == chunks + ChunkOf(file, heading, absoluteStart, text, localStart, cutIndex)
  {
    var rawChunk := text[localStart..cutIndex];
    var chunkText := Trim(StripHtml(rawChunk));
    pushed := chunks;
    if chunkText != [] {
      pushed := chunks + [TextChunk(file.id, file.name, heading, absoluteStart + localStart, absoluteStart + cutIndex, chunkText)];
    } else {
      assert chunks + [] == chunks;
    }
  }

  /** `sliceIntoChunks`: the loop over one section. */
  method SliceIntoChunks(file: LibraryFile, text: string, heading: Option<string>, absoluteStart: nat, max: nat)
    returns (chunks: seq<TextChunk>)
    requires 0 < max
    ensures chunks == SliceChunks(file, heading, absoluteStart, text, 0, max)
  {
    ghost var all := SliceChunks(file, heading, absoluteStart, text, 0, max);
    chunks := [];
    var localStart := 0;
    var length := |text|;
    while localStart < length
      invariant 0 <= localStart <= length
      invariant chunks + SliceChunks(file, heading, absoluteStart, text, localStart, max) == all
      decreases length - localStart
    {
      var cutIndex := CutWindow(text, localStart, max);
      SliceChunksStep(file, heading, absoluteStart, text, localStart, max, chunks, all);
      chunks := PushChunk(file, heading, absoluteStart, text, localStart, cutIndex, chunks);
      localStart := cutIndex;
      if cutIndex == length {
        assert chunks + [] == chunks;
        break;
      }
    }
    assert chunks + [] == chunks;
  }

  /** The chunks of the sections from the `i`-th on, in order. */
  function SectionsChunks(file: LibraryFile, content: string, secs: seq<Section>, i: nat, max: nat): seq<TextChunk>
    requires 0 < max && i <= |secs| && Tiled(content, secs)
    decreases |secs| - i
  {
    if i == |secs| then []
    else
      SliceChunks(file, secs[i].heading, secs[i].start, content[secs[i].start..secs[i].end], 0, max)
      + SectionsChunks(file, content, secs, i + 1, max)
  }

  /** One turn of the loop over the sections. */
  lemma SectionsChunksStep(file: LibraryFile, content: string, secs: seq<Section>, i: nat, max: nat,
                           done: seq<TextChunk>, all: seq<TextChunk>)
    requires 0 < max && i < |secs| && Tiled(content, secs)
    requires done + SectionsChunks(file, content, secs, i, max) == all
    ensures (done + SliceChunks(file, secs[i].heading, secs[i].start, content[secs[i].start..secs[i].end], 0, max))
      + SectionsChunks(file, content, secs, i + 1, max) == all
  {
    var head := SliceChunks(file, secs[i].heading, secs[i].start, content[secs[i].start..secs[i].end], 0, max);
    var tail := SectionsChunks(file, content, secs, i + 1, max);
    assert done + head + tail == done + (head + tail);
  }

  /** What `chunkMarkdown(file, max, strategy)` returns. */
  function Chunked(file: LibraryFile, max: nat, strategy: ChunkStrategy): seq<TextChunk>
    requires strategy == WholeFile || 0 < max
  {
    var content := NormalizeHeadings(file.content);
    match strategy
    case WholeFile => [TextChunk(file.id, file.name, Some("Full file"), 0, |content|, content)]
    case ByHeading => SectionsChunks(file, content, Sections(content, HeadingsFrom(content, 0)), 0, max)
  }

  /** A chunk of `file` whose normalised text is `content`: its offsets lie
      in the text, at most `max` apart, and its text is the non-empty
      `stripHtml` of the slice between them, so clean and no longer than
      that slice. */
  predicate WellFormedChunk(c: TextChunk, file: LibraryFile, content: string, max: nat) {
    && c.fileId == file.id && c.fileName == file.name && c.heading.Some?
    && 0 <= c.startOffset < c.endOffset <= |content|
    && c.endOffset - c.startOffset <= max
    && c.text == StripHtml(content[c.startOffset..c.endOffset])
    && c.text != [] && Clean(c.text)
    && |c.text| <= c.endOffset - c.startOffset
  }

  /** Chunks that come in text order and do not overlap. */
  predicate Ordered(cs: seq<TextChunk>) {
    forall j, k :: 0 <= j < k < |cs| ==> cs[j].endOffset <= cs[k].startOffset
  }

  /** All chunks lie between `a` and `b`. */
  predicate Within(cs: seq<TextChunk>, a: int, b: int) {
    forall k :: 0 <= k < |cs| ==> a <= cs[k].startOffset && cs[k].endOffset <= b
  }

  lemma OrderedAppend(xs: seq<TextChunk>, ys: seq<TextChunk>, a: int, m: int, b: int)
    requires Ordered(xs) && Ordered(ys) && Within(xs, a, m) && Within(ys, m, b) && a <= m <= b
    ensures Ordered(xs + ys) && Within(xs + ys, a, b)
  {
    var zs := xs + ys;
    forall j, k | 0 <= j < k < |zs| ensures zs[j].endOffset <= zs[k].startOffset {
      if k < |xs| {
        assert zs[j] == xs[j] && zs[k] == xs[k];
      } else if j < |xs| {
        assert zs[j] == xs[j] && zs[k] == ys[k - |xs|];
      } else {
        assert zs[j] == ys[j - |xs|] && zs[k] == ys[k - |xs|];
      }
    }
    forall k | 0 <= k < |zs| ensures a <= zs[k].startOffset && zs[k].endOffset <= b {
      if k < |xs| {
        assert zs[k] == xs[k];
      } else {
        assert zs[k] == ys[k - |xs|];
      }
    }
  }

  /** The chunk of one raw slice, if there is one, is well formed. */
  lemma ChunkOfWellFormed(file: LibraryFile, heading: Option<string>, base: nat, text: string,
                          content: string, lo: nat, hi: nat, max: nat)
    requires heading.Some? && base + |text| <= |content| && text == content[base..base + |text|]
    requires lo < hi <= |text| && hi - lo <= max
    ensures var r := ChunkOf(file, heading, base, text, lo, hi);
      && (forall k :: 0 <= k < |r| ==> WellFormedChunk(r[k], file, content, max) && r[k].heading == heading)
      && Ordered(r) && Within(r, base + lo, base + hi)
  {
    var raw := text[lo..hi];
    SliceOfSlice(content, base, base + |text|, lo, hi);
    assert raw == content[base + lo..base + hi];
    var t := StripHtml(raw);
    var c := TextChunk(file.id, file.name, heading, base + lo, base + hi, t);
    assert content[c.startOffset..c.endOffset] == raw;
    TrimOfStripHtml(raw);
    if t != [] {
      assert ChunkOf(file, heading, base, text, lo, hi) == [c];
      assert WellFormedChunk(c, file, content, max);
    }
  }

  /** The chunks cut from `text[lo..]`, a section lying at `base` in
      `content`, are well formed, ordered, and lie within the section. */
  lemma {:induction false} SliceChunksWellFormed(file: LibraryFile, heading: Option<string>, base: nat, text: string,
                                                  content: string, lo: nat, max: nat)
    requires heading.Some? && base + |text| <= |content| && text == content[base..base + |text|]
    requires lo <= |text| && 0 < max
    ensures var r := SliceChunks(file, heading, base, text, lo, max);
      && (forall k :: 0 <= k < |r| ==> WellFormedChunk(r[k], file, content, max) && r[k].heading == heading)
      && Ordered(r) && Within(r, base + lo, base + |text|)
    decreases |text| - lo
  {
    if lo < |text| {
      var cut := CutIndex(text, lo, max);
      ChunkOfWellFormed(file, heading, base, text, content, lo, cut, max);
      SliceChunksWellFormed(file, heading, base, text, content, cut, max);
      OrderedAppend(ChunkOf(file, heading, base, text, lo, cut), SliceChunks(file, heading, base, text, cut, max),
                    base + lo, base + cut, base + |text|);
    }
  }

  lemma {:induction false} SectionsChunksWellFormed(file: LibraryFile, content: string, secs: seq<Section>,
                                                     i: nat, max: nat)
    requires 0 < max && i <= |secs| && Tiled(content, secs)
    ensures var r := SectionsChunks(file, content, secs, i, max);
      && (forall k :: 0 <= k < |r| ==> WellFormedChunk(r[k], file, content, max))
      && Ordered(r) && (i < |secs| ==> Within(r, secs[i].start, |content|))
    decreases |secs| - i
  {
    if i < |secs| {
      var s := secs[i];
      var text := content[s.start..s.end];
      SliceChunksWellFormed(file, s.heading, s.start, text, content, 0, max);
      SectionsChunksWellFormed(file, content, secs, i + 1, max);
      var head := SliceChunks(file, s.heading, s.start, text, 0, max);
      var tail := SectionsChunks(file, content, secs, i + 1, max);
      assert s.end == NextStart(content, secs, i);
      if i + 1 < |secs| {
        assert Within(tail, secs[i + 1].start, |content|);
      }
      OrderedAppend(head, tail, s.start, s.end, |content|);
    }
  }

  // ---------------------------------------------------------------------
  // Coverage: the cuts of the scan tile the text

  /** One raw slice `[lo, hi)` of the normalised text that a turn of the
      `sliceIntoChunks` loop takes, with the heading of its section. */
  datatype Cut = Cut(heading: Option<string>, lo: nat, hi: nat)

  /** The cuts the scan of `text[lo..]` makes, a section lying at `base`;
      offsets count from the start of the normalised file. */
  function SliceCuts(heading: Option<string>, base: nat, text: string, lo: nat, max: nat): seq<Cut>
    requires lo <= |text| && 0 < max
    decreases |text| - lo
  {
    if lo == |text| then []
    else
      var cut := CutIndex(text, lo, max);
      [Cut(heading, base + lo, base + cut)] + SliceCuts(heading, base, text, cut, max)
  }

  /** The cuts of the sections from the `i`-th on, in order. */
  function SectionsCuts(content: string, secs: seq<Section>, i: nat, max: nat): seq<Cut>
    requires 0 < max && i <= |secs| && Tiled(content, secs)
    decreases |secs| - i
  {
    if i == |secs| then []
    else
      SliceCuts(secs[i].heading, secs[i].start, content[secs[i].start..secs[i].end], 0, max)
      + SectionsCuts(content, secs, i + 1, max)
  }

  /** All the cuts `chunkMarkdown` makes in the normalised text. */
  function Cuts(content: string, max: nat): seq<Cut>
    requires 0 < max
  {
    SectionsCuts(content, Sections(content, HeadingsFrom(content, 0)), 0, max)
  }

  /** Cuts that follow each other from `a` to `b` without gap or overlap,
      each non-empty and at most `max` long. */
  predicate Tiles(cuts: seq<Cut>, a: nat, b: nat, max: nat)
    decreases |cuts|
  {
    if cuts == [] then a == b
    else cuts[0].lo == a < cuts[0].hi && cuts[0].hi - cuts[0].lo <= max && Tiles(cuts[1..], cuts[0].hi, b, max)
  }

  /** Position `p` lies in one of the cuts. */
  predicate InSomeCut(cuts: seq<Cut>, p: int) {
    exists k :: 0 <= k < |cuts| && cuts[k].lo <= p < cuts[k].hi
  }

  lemma {:induction false} TilesAppend(xs: seq<Cut>, ys: seq<Cut>, a: nat, m: nat, b: nat, max: nat)
    requires Tiles(xs, a, m, max) && Tiles(ys, m, b, max)
    ensures Tiles(xs + ys, a, b, max)
    decreases |xs|
  {
    if xs == [] {
      assert xs + ys == ys;
    } else {
      assert (xs + ys)[1..] == xs[1..] + ys;
      TilesAppend(xs[1..], ys, xs[0].hi, m, b, max);
    }
  }

  /** A tiling lies between its ends, and every position between them lies
      in one of its cuts. */
  lemma {:induction false} TilesBounds(cuts: seq<Cut>, a: nat, b: nat, max: nat)
    requires Tiles(cuts, a, b, max)
    ensures a <= b
    ensures forall k :: 0 <= k < |cuts| ==> a <= cuts[k].lo < cuts[k].hi <= b && cuts[k].hi - cuts[k].lo <= max
    ensures forall p :: a <= p < b ==> InSomeCut(cuts, p)
    decreases |cuts|
  {
    if cuts != [] {
      var rest := cuts[1..];
      TilesBounds(rest, cuts[0].hi, b, max);
      forall k | 0 < k < |cuts|
        ensures a <= cuts[k].lo < cuts[k].hi <= b && cuts[k].hi - cuts[k].lo <= max
      {
        assert cuts[k] == rest[k - 1];
      }
      forall p | a <= p < b
        ensures InSomeCut(cuts, p)
      {
        if p >= cuts[0].hi {
          assert InSomeCut(rest, p);
          var k :| 0 <= k < |rest| && rest[k].lo <= p < rest[k].hi;
          assert cuts[k + 1] == rest[k];
        }
      }
    }
  }

  /** The cuts of one section tile it, and carry its heading. */
  lemma {:induction false} SliceCutsTile(heading: Option<string>, base: nat, text: string, lo: nat, max: nat)
    requires lo <= |text| && 0 < max
    ensures var cuts := SliceCuts(heading, base, text, lo, max);
      Tiles(cuts, base + lo, base + |text|, max) && forall k :: 0 <= k < |cuts| ==> cuts[k].heading == heading
    decreases |text| - lo
  {
    if lo < |text| {
      var cut := CutIndex(text, lo, max);
      SliceCutsTile(heading, base, text, cut, max);
      var rest := SliceCuts(heading, base, text, cut, max);
      assert ([Cut(heading, base + lo, base + cut)] + rest)[1..] == rest;
    }
  }

  /** Cut `c` lies in a section, and carries its heading. */
  predicate CutInSection(c: Cut, secs: seq<Section>) {
    exists i :: 0 <= i < |secs| && secs[i].start <= c.lo && c.hi <= secs[i].end && c.heading == secs[i].heading
  }

  /** The cuts of the sections from the `i`-th on tile the text from that
      section to its end, and each lies in a section and carries the
      section's heading. */
  lemma {:induction false} SectionsCutsTile(content: string, secs: seq<Section>, i: nat, max: nat)
    requires 0 < max && i < |secs| && Tiled(content, secs)
    ensures var cuts := SectionsCuts(content, secs, i, max);
      && Tiles(cuts, secs[i].start, |content|, max)
      && forall k :: 0 <= k < |cuts| ==> CutInSection(cuts[k], secs)
    decreases |secs| - i
  {
    var s := secs[i];
    var text := content[s.start..s.end];
    var head := SliceCuts(s.heading, s.start, text, 0, max);
    var tail := SectionsCuts(content, secs, i + 1, max);
    assert SectionsCuts(content, secs, i, max) == head + tail;
    assert s.end == NextStart(content, secs, i);
    SliceCutsTile(s.heading, s.start, text, 0, max);
    TilesBounds(head, s.start, s.end, max);
    if i + 1 < |secs| {
      SectionsCutsTile(content, secs, i + 1, max);
      TilesAppend(head, tail, s.start, s.end, |content|, max);
    } else {
      assert head + tail == head;
    }
    CutsInSectionAppend(head, tail, secs, i);
  }

  /** Cuts inside section `i` with its heading, followed by cuts that each
      lie in some section, all lie in some section. */
  lemma CutsInSectionAppend(head: seq<Cut>, tail: seq<Cut>, secs: seq<Section>, i: nat)
    requires i < |secs|
    requires forall k :: 0 <= k < |head| ==> secs[i].start <= head[k].lo && head[k].hi <= secs[i].end
    requires forall k :: 0 <= k < |head| ==> head[k].heading == secs[i].heading
    requires forall k :: 0 <= k < |tail| ==> CutInSection(tail[k], secs)
    ensures forall k :: 0 <= k < |head + tail| ==> CutInSection((head + tail)[k], secs)
  {
    var cuts := head + tail;
    forall k | 0 <= k < |cuts| ensures CutInSection(cuts[k], secs) {
      if k < |head| {
        assert cuts[k] == head[k];
      } else {
        assert cuts[k] == tail[k - |head|];
      }
    }
  }

  /** The cuts lie in the text. */
  predicate InText(content: string, cuts: seq<Cut>) {
    forall k :: 0 <= k < |cuts| ==> cuts[k].lo <= cuts[k].hi <= |content|
  }

  /** The chunk of one cut, unless its slice strips to nothing. The
      stripping `strip` is a parameter (it is `StripText`), so that facts
      about lists of chunks are stated without unfolding it. */
  function PieceOf(file: LibraryFile, content: string, c: Cut, strip: string -> string): seq<TextChunk>
    requires c.lo <= c.hi <= |content|
  {
    var t := strip(content[c.lo..c.hi]);
    if t == [] then [] else [TextChunk(file.id, file.name, c.heading, c.lo, c.hi, t)]
  }

  /** The chunks of the cuts, in order. */
  function Pieces(file: LibraryFile, content: string, cuts: seq<Cut>, strip: string -> string): seq<TextChunk>
    requires InText(content, cuts)
    decreases |cuts|
  {
    if cuts == [] then [] else PieceOf(file, content, cuts[0], strip) + Pieces(file, content, cuts[1..], strip)
  }

  lemma PiecesCons(file: LibraryFile, content: string, c: Cut, cuts: seq<Cut>, strip: string -> string)
    requires c.lo <= c.hi <= |content| && InText(content, cuts)
    ensures InText(content, [c] + cuts)
    ensures Pieces(file, content, [c] + cuts, strip) == PieceOf(file, content, c, strip) + Pieces(file, content, cuts, strip)
  {
    assert ([c] + cuts)[1..] == cuts;
  }

  lemma {:induction false} PiecesAppend(file: LibraryFile, content: string, xs: seq<Cut>, ys: seq<Cut>,
                                         strip: string -> string)
    requires InText(content, xs) && InText(content, ys)
    ensures InText(content, xs + ys)
    ensures Pieces(file, content, xs + ys, strip) == Pieces(file, content, xs, strip) + Pieces(file, content, ys, strip)
    decreases |xs|
  {
    if xs == [] {
      assert xs + ys == ys;
    } else {
      assert (xs + ys)[1..] == xs[1..] + ys;
      PiecesAppend(file, content, xs[1..], ys, strip);
    }
  }

  /** A cut yields no chunk exactly when its slice strips to nothing, and
      otherwise one chunk spanning the cut. */
  lemma PieceSpan(file: LibraryFile, content: string, c: Cut, strip: string -> string)
    requires c.lo <= c.hi <= |content|
    ensures PieceOf(file, content, c, strip) == [] <==> strip(content[c.lo..c.hi]) == []
    ensures PieceOf(file, content, c, strip) != [] ==>
      |PieceOf(file, content, c, strip)| == 1
      && PieceOf(file, content, c, strip)[0].startOffset == c.lo && PieceOf(file, content, c, strip)[0].endOffset == c.hi
  {
  }

  /** A raw slice of a section's text stripped by `strip` is the piece of its cut. */
  lemma SlicePiece(file: LibraryFile, heading: Option<string>, base: nat, text: string,
                   content: string, lo: nat, hi: nat, strip: string -> string)
    requires base + |text| <= |content| && text == content[base..base + |text|]
    requires lo <= hi <= |text|
    ensures var t := strip(text[lo..hi]);
      (if t == [] then [] else [TextChunk(file.id, file.name, heading, base + lo, base + hi, t)])
      == PieceOf(file, content, Cut(heading, base + lo, base + hi), strip)
  {
    SliceOfSlice(content, base, base + |text|, lo, hi);
  }

  /** The chunk of one raw slice is the chunk of its cut. */
  lemma ChunkOfIsPiece(file: LibraryFile, heading: Option<string>, base: nat, text: string,
                       content: string, lo: nat, hi: nat)
    requires base + |text| <= |content| && text == content[base..base + |text|]
    requires lo <= hi <= |text|
    ensures ChunkOf(file, heading, base, text, lo, hi) == PieceOf(file, content, Cut(heading, base + lo, base + hi), StripText)
  {
    SlicePiece(file, heading, base, text, content, lo, hi, StripText);
  }

  /** The chunks of one section are the chunks of its cuts. */
  lemma {:induction false} SliceChunksArePieces(file: LibraryFile, heading: Option<string>, base: nat, text: string,
                                                 content: string, lo: nat, max: nat)
    requires base + |text| <= |content| && text == content[base..base + |text|]
    requires lo <= |text| && 0 < max
    ensures var cuts := SliceCuts(heading, base, text, lo, max);
      InText(content, cuts) && SliceChunks(file, heading, base, text, lo, max) == Pieces(file, content, cuts, StripText)
    decreases |text| - lo
  {
    var cuts := SliceCuts(heading, base, text, lo, max);
    SliceCutsTile(heading, base, text, lo, max);
    TilesBounds(cuts, base + lo, base + |text|, max);
    if lo < |text| {
      var cut := CutIndex(text, lo, max);
      var rest := SliceCuts(heading, base, text, cut, max);
      assert cuts == [Cut(heading, base + lo, base + cut)] + rest;
      assert SliceChunks(file, heading, base, text, lo, max)
        == ChunkOf(file, heading, base, text, lo, cut) + SliceChunks(file, heading, base, text, cut, max);
      SliceChunksArePieces(file, heading, base, text, content, cut, max);
      PiecesCons(file, content, Cut(heading, base + lo, base + cut), rest, StripText);
      ChunkOfIsPiece(file, heading, base, text, content, lo, cut);
    }
  }

  /** The chunks of the sections are the chunks of their cuts. */
  lemma {:induction false} SectionsChunksArePieces(file: LibraryFile, content: string, secs: seq<Section>, i: nat, max: nat)
    requires 0 < max && i <= |secs| && Tiled(content, secs)
    ensures var cuts := SectionsCuts(content, secs, i, max);
      InText(content, cuts) && SectionsChunks(file, content, secs, i, max) == Pieces(file, content, cuts, StripText)
    decreases |secs| - i
  {
    if i < |secs| {
      var s := secs[i];
      var text := content[s.start..s.end];
      SliceChunksArePieces(file, s.heading, s.start, text, content, 0, max);
      SectionsChunksArePieces(file, content, secs, i + 1, max);
      PiecesAppend(file, content, SliceCuts(s.heading, s.start, text, 0, max), SectionsCuts(content, secs, i + 1, max), StripText);
    }
  }

  /** The chunk of a cut that strips to something is one of the chunks. */
  lemma {:induction false} PieceInPieces(file: LibraryFile, content: string, cuts: seq<Cut>, strip: string -> string, k: nat)
    requires InText(content, cuts) && k < |cuts| && PieceOf(file, content, cuts[k], strip) != []
    ensures exists j ::
      && 0 <= j < |Pieces(file, content, cuts, strip)|
      && Pieces(file, content, cuts, strip)[j] == PieceOf(file, content, cuts[k], strip)[0]
    decreases |cuts|
  {
    var first, rest := PieceOf(file, content, cuts[0], strip), Pieces(file, content, cuts[1..], strip);
    assert Pieces(file, content, cuts, strip) == first + rest;
    if k == 0 {
      assert (first + rest)[0] == first[0];
    } else {
      PieceInPieces(file, content, cuts[1..], strip, k - 1);
      var j :| 0 <= j < |rest| && rest[j] == PieceOf(file, content, cuts[1..][k - 1], strip)[0];
      assert (first + rest)[|first| + j] == rest[j];
    }
  }

  /** Every chunk is the chunk of one of the cuts. */
  lemma {:induction false} PiecesFromCuts(file: LibraryFile, content: string, cuts: seq<Cut>, strip: string -> string, j: nat)
    requires InText(content, cuts) && j < |Pieces(file, content, cuts, strip)|
    ensures exists k :: 0 <= k < |cuts| && PieceOf(file, content, cuts[k], strip) == [Pieces(file, content, cuts, strip)[j]]
    decreases |cuts|
  {
    var first, rest := PieceOf(file, content, cuts[0], strip), Pieces(file, content, cuts[1..], strip);
    assert Pieces(file, content, cuts, strip) == first + rest;
    if j >= |first| {
      PiecesFromCuts(file, content, cuts[1..], strip, j - |first|);
      var k :| 0 <= k < |cuts[1..]| && PieceOf(file, content, cuts[1..][k], strip) == [rest[j - |first|]];
      assert cuts[1..][k] == cuts[k + 1];
    } else {
      assert |first| == 1 && (first + rest)[j] == first[0];
    }
  }

  /** Position `p` lies in one of the chunks. */
  predicate Covered(chunks: seq<TextChunk>, p: int) {
    exists j :: 0 <= j < |chunks| && chunks[j].startOffset <= p < chunks[j].endOffset
  }

  /** Position `p` lies in a cut whose slice strips to nothing. */
  predicate InBlankCut(content: string, cuts: seq<Cut>, strip: string -> string, p: int) {
    exists k :: 0 <= k < |cuts| && cuts[k].lo <= p < cuts[k].hi <= |content|
      && strip(content[cuts[k].lo..cuts[k].hi]) == []
  }

  /** Chunk `c` lies in one of the sections, and carries its heading. */
  predicate InSection(c: TextChunk, secs: seq<Section>) {
    exists i :: 0 <= i < |secs| && secs[i].start <= c.startOffset && c.endOffset <= secs[i].end && c.heading == secs[i].heading
  }

  /** The cuts of the scan tile the normalised text, each at most `max`
      long; the chunks are the chunks of those cuts, in order; and every
      cut lies in a section and carries its heading. */
  lemma ChunkedAreCuts(file: LibraryFile, max: nat)
    requires 0 < max
    ensures var content := NormalizeHeadings(file.content); var cuts := Cuts(content, max);
      && Tiles(cuts, 0, |content|, max) && InText(content, cuts)
      && Chunked(file, max, ByHeading) == Pieces(file, content, cuts, StripText)
      && forall k :: 0 <= k < |cuts| ==> CutInSection(cuts[k], Sections(content, HeadingsFrom(content, 0)))
  {
    var content := NormalizeHeadings(file.content);
    var secs := Sections(content, HeadingsFrom(content, 0));
    SectionsCutsTile(content, secs, 0, max);
    SectionsChunksArePieces(file, content, secs, 0, max);
  }

  /** Coverage: every position of the normalised text lies in a chunk or in
      a cut whose slice strips to nothing, so no text that strips to
      something is left out of the chunks. */
  lemma ChunksCover(file: LibraryFile, max: nat, p: nat)
    requires 0 < max && p < |NormalizeHeadings(file.content)|
    ensures var content := NormalizeHeadings(file.content);
      Covered(Chunked(file, max, ByHeading), p) || InBlankCut(content, Cuts(content, max), StripText, p)
  {
    var content := NormalizeHeadings(file.content);
    var cuts := Cuts(content, max);
    ChunkedAreCuts(file, max);
    TilesBounds(cuts, 0, |content|, max);
    PiecesCover(file, content, cuts, StripText, p);
  }

  /** A position in one of the cuts lies in a chunk of the cuts, or in a cut
      whose slice strips to nothing. */
  lemma PiecesCover(file: LibraryFile, content: string, cuts: seq<Cut>, strip: string -> string, p: int)
    requires InText(content, cuts) && InSomeCut(cuts, p)
    ensures Covered(Pieces(file, content, cuts, strip), p) || InBlankCut(content, cuts, strip, p)
  {
    var k :| 0 <= k < |cuts| && cuts[k].lo <= p < cuts[k].hi;
    PieceSpan(file, content, cuts[k], strip);
    if PieceOf(file, content, cuts[k], strip) != [] {
      PieceInPieces(file, content, cuts, strip, k);
      var chunks := Pieces(file, content, cuts, strip);
      var j :| 0 <= j < |chunks| && chunks[j] == PieceOf(file, content, cuts[k], strip)[0];
      assert chunks[j].startOffset <= p < chunks[j].endOffset;
    } else {
      assert cuts[k].lo <= p < cuts[k].hi <= |content| && strip(content[cuts[k].lo..cuts[k].hi]) == [];
    }
  }

  /** Every chunk lies in a section and carries its heading: the section's
      title, or `"Intro"`. */
  lemma ChunksInSections(file: LibraryFile, max: nat, j: nat)
    requires 0 < max && j < |Chunked(file, max, ByHeading)|
    ensures var content := NormalizeHeadings(file.content);
      InSection(Chunked(file, max, ByHeading)[j], Sections(content, HeadingsFrom(content, 0)))
  {
    var content := NormalizeHeadings(file.content);
    var cuts := Cuts(content, max);
    var secs := Sections(content, HeadingsFrom(content, 0));
    ChunkedAreCuts(file, max);
    PiecesFromCuts(file, content, cuts, StripText, j);
    var k :| 0 <= k < |cuts| && PieceOf(file, content, cuts[k], StripText) == [Pieces(file, content, cuts, StripText)[j]];
    assert CutInSection(cuts[k], secs);
  }

  /** What the heading strategy promises of all the chunks of one file:
      well formed, in order, covering the text, each in its section. */
  lemma ChunkedCoverage(file: LibraryFile, max: nat)
    requires 0 < max
    ensures var content := NormalizeHeadings(file.content); var chunks := Chunked(file, max, ByHeading);
      && (forall k :: 0 <= k < |chunks| ==> WellFormedChunk(chunks[k], file, content, max))
      && Ordered(chunks)
      && (forall p :: 0 <= p < |content| ==> Covered(chunks, p) || InBlankCut(content, Cuts(content, max), StripText, p))
      && (forall k :: 0 <= k < |chunks| ==> InSection(chunks[k], Sections(content, HeadingsFrom(content, 0))))
  {
    var content := NormalizeHeadings(file.content);
    SectionsChunksWellFormed(file, content, Sections(content, HeadingsFrom(content, 0)), 0, max);
    forall p | 0 <= p < |content|
      ensures Covered(Chunked(file, max, ByHeading), p) || InBlankCut(content, Cuts(content, max), StripText, p)
    {
      ChunksCover(file, max, p);
    }
    forall k | 0 <= k < |Chunked(file, max, ByHeading)|
      ensures InSection(Chunked(file, max, ByHeading)[k], Sections(content, HeadingsFrom(content, 0)))
    {
      ChunksInSections(file, max, k);
    }
  }

  /** `chunkMarkdown`. With strategy `'file'` the whole normalised text is
      one chunk headed `"Full file"`, not passed through `stripHtml`. With
      strategy `'heading'` every chunk is well formed, the chunks come in
      text order without overlapping, every chunk lies in a section and
      carries its heading, and every position of the text outside all
      chunks lies in a cut whose slice strips to nothing. */
  method ChunkMarkdown(file: LibraryFile, max: nat, strategy: ChunkStrategy) returns (chunks: seq<TextChunk>)
    requires strategy == WholeFile || 0 < max
    ensures chunks == Chunked(file, max, strategy)
    ensures strategy == WholeFile ==>
      chunks == [TextChunk(file.id, file.name, Some("Full file"), 0, |NormalizeHeadings(file.content)|,
                           NormalizeHeadings(file.content))]
    ensures strategy == ByHeading ==>
      && (forall k :: 0 <= k < |chunks| ==> WellFormedChunk(chunks[k], file, NormalizeHeadings(file.content), max))
      && Ordered(chunks)
    ensures strategy == ByHeading ==> var content := NormalizeHeadings(file.content);
      && (forall p :: 0 <= p < |content| ==> Covered(chunks, p) || InBlankCut(content, Cuts(content, max), StripText, p))
      && (forall k :: 0 <= k < |chunks| ==> InSection(chunks[k], Sections(content, HeadingsFrom(content, 0))))
  {
    var content := NormalizeHeadings(file.content);
    if strategy == WholeFile {
      return [TextChunk(file.id, file.name, Some("Full file"), 0, |content|, content)];
    }
    var headingMatches := HeadingsFrom(content, 0);
    var sections := Sections(content, headingMatches);
    ghost var all := SectionsChunks(file, content, sections, 0, max);
    chunks := [];
    var i := 0;
    while i < |sections|
      invariant 0 <= i <= |sections|
      invariant chunks + SectionsChunks(file, content, sections, i, max) == all
      decreases |sections| - i
    {
      var section := sections[i];
      var part := SliceIntoChunks(file, content[section.start..section.end], section.heading, section.start, max);
      SectionsChunksStep(file, content, sections, i, max, chunks, all);
      chunks := chunks + part;
      i := i + 1;
    }
    assert chunks + [] == chunks;
    ChunkedCoverage(file, max);
  }

  /** Every chunk of one file names that file. */
  lemma ChunkedFromFile(file: LibraryFile, max: nat, strategy: ChunkStrategy)
    requires strategy == WholeFile || 0 < max
    ensures var r := Chunked(file, max, strategy);
      forall k :: 0 <= k < |r| ==> r[k].fileId == file.id && r[k].fileName == file.name
  {
    if strategy == ByHeading {
      var content := NormalizeHeadings(file.content);
      SectionsChunksWellFormed(file, content, Sections(content, HeadingsFrom(content, 0)), 0, max);
    }
  }

  /** Chunk `c` names one of the files. */
  predicate FromFile(c: TextChunk, files: seq<LibraryFile>) {
    exists i :: 0 <= i < |files| && c.fileId == files[i].id && c.fileName == files[i].name
  }

  /** The library's chunk list: the chunks of every file, in file order,
      with the default chunk size. Every chunk names one of the files. */
  function LibraryChunks(files: seq<LibraryFile>, strategy: ChunkStrategy): (r: seq<TextChunk>)
    ensures forall k :: 0 <= k < |r| ==> FromFile(r[k], files)
    decreases |files|
  {
    if files == [] then []
    else
      var head, tail := Chunked(files[0], DefaultChunkSize, strategy), LibraryChunks(files[1..], strategy);
      ChunkedFromFile(files[0], DefaultChunkSize, strategy);
      assert forall k :: 0 <= k < |head| ==> FromFile(head[k], files) by {
        forall k | 0 <= k < |head| ensures FromFile(head[k], files) {
          assert head[k].fileId == files[0].id && head[k].fileName == files[0].name;
        }
      }
      assert forall k :: 0 <= k < |tail| ==> FromFile(tail[k], files) by {
        forall k | 0 <= k < |tail| ensures FromFile(tail[k], files) {
          var i :| 0 <= i < |files[1..]| && tail[k].fileId == files[1..][i].id && tail[k].fileName == files[1..][i].name;
          assert files[1..][i] == files[i + 1];
        }
      }
      head + tail
  }

  /** The chunks of two runs of files are the chunks of the first run
      followed by those of the second: file order is kept. */
  lemma {:induction false} LibraryChunksAppend(xs: seq<LibraryFile>, ys: seq<LibraryFile>, strategy: ChunkStrategy)
    ensures LibraryChunks(xs + ys, strategy) == LibraryChunks(xs, strategy) + LibraryChunks(ys, strategy)
    decreases |xs|
  {
    if xs == [] {
      assert xs + ys == ys;
    } else {
      assert (xs + ys)[0] == xs[0];
      assert (xs + ys)[1..] == xs[1..] + ys;
      LibraryChunksAppend(xs[1..], ys, strategy);
    }
  }
}
