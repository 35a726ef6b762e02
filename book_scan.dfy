/** The two scans of a library file's normalised lines in
    src/services/libraryLoader.ts: monster sections (`extractBookMonsters`)
    and class and race names (`extractClassRaceNames`). */
module BookScan {
  import opened Wrappers
  import opened Text
  import opened Seqs
  import opened Sorting
  import opened Types
  import opened Markup

  /** `normalizeHeadings(file.content).split('\n')`. */
  function Lines(file: LibraryFile): seq<string> {
    Split(NormalizeHeadings(file.content), '\n')
  }

  /** `line` starts with `##` followed by whitespace. */
  predicate HashesThenSpace(line: string) {
    |line| >= 3 && line[0] == '#' && line[1] == '#' && IsSpace(line[2])
  }

  /** The trimmed group of `/^##\s+(.+)/` on one line, or None when the
      line does not match. The greedy `\s+` swallows all whitespace when
      something else follows it; on a line of `##` and whitespace only it
      gives back one character for `.+`, so the name is then empty. */
  function MonsterHeading(line: string): (r: Option<string>)
    ensures r.Some? ==> HashesThenSpace(line) && Trimmed(r.value)
    ensures HashesThenSpace(line) && RunEnd(line, 2, IsSpace) < |line| ==> r.Some? && |r.value| > 0
    ensures HashesThenSpace(line) && RunEnd(line, 2, IsSpace) == |line| ==> r.None? || |r.value| == 0
  {
    if !HashesThenSpace(line) then None
    else
      var e := RunEnd(line, 2, IsSpace);
      if e < |line| then
        var t := line[e..RunEnd(line, e, NotLineTerminator)];
        assert t[0] == line[e];
        Some(Trim(t))
      else if exists q | 3 <= q < e :: NotLineTerminator(line[q]) then
        TrimAllSpaces(line[2..]);
        Some([])
      else None
  }

  predicate IsMonsterHeading(line: string) {
    MonsterHeading(line).Some?
  }

  /** The first heading line at index `i` or later, or the number of lines. */
  function NextHeadingLine(lines: seq<string>, i: nat): (j: nat)
    requires i <= |lines|
    ensures i <= j <= |lines|
    ensures j < |lines| ==> IsMonsterHeading(lines[j])
    ensures forall k :: i <= k < j ==> !IsMonsterHeading(lines[k])
    decreases |lines| - i
  {
    if i == |lines| || IsMonsterHeading(lines[i]) then i else NextHeadingLine(lines, i + 1)
  }

  /** The name a heading line gives its section: empty for a line that is
      not a heading. */
  function HeadingName(line: string): string {
    MonsterHeading(line).GetOr([])
  }

  /** A heading line that opens a section: one whose name is not empty. */
  predicate NamedHeading(line: string) {
    |HeadingName(line)| > 0
  }

  /** A named section: its heading and its trimmed body text. */
  datatype BookSection = BookSection(name: string, text: string)

  /** The body of the heading at line `i`: the lines up to the next
      heading, joined and trimmed. */
  function Body(lines: seq<string>, i: nat): string
    requires i < |lines|
  {
    Trim(Join(lines[i + 1..NextHeadingLine(lines, i + 1)], "\n"))
  }

  /** The section the heading at line `h` opens. */
  function SectionAt(lines: seq<string>, h: nat): BookSection
    requires h < |lines|
  {
    BookSection(HeadingName(lines[h]), Body(lines, h))
  }

  /** The indices below `n` of the lines that open a section, in order. */
  function NamedHeads(lines: seq<string>, n: nat): (hs: seq<nat>)
    requires n <= |lines|
    ensures |hs| <= n
    ensures forall k :: 0 <= k < |hs| ==> hs[k] < n && NamedHeading(lines[hs[k]])
    decreases n
  {
    if n == 0 then [] else NamedHeads(lines, n - 1) + (if NamedHeading(lines[n - 1]) then [n - 1] else [])
  }

  /** The sections of a file, in document order: one per heading line
      whose name is not empty. */
  function BookSections(lines: seq<string>): (r: seq<BookSection>)
    ensures |r| == |NamedHeads(lines, |lines|)|
  {
    var hs := NamedHeads(lines, |lines|);
    seq(|hs|, k requires 0 <= k < |hs| => SectionAt(lines, hs[k]))
  }

  /** Every section is opened by a heading line, none of them before the
      first heading: text before it belongs to no section. */
  lemma BookSectionsFromHeadings(lines: seq<string>, k: nat)
    requires k < |BookSections(lines)|
    ensures exists h :: NextHeadingLine(lines, 0) <= h < |lines| && NamedHeading(lines[h])
                        && BookSections(lines)[k] == SectionAt(lines, h)
  {
    var h := NamedHeads(lines, |lines|)[k];
    assert IsMonsterHeading(lines[h]);
    assert BookSections(lines)[k] == SectionAt(lines, h);
  }

  /** A file without heading lines has no sections. */
  lemma BookSectionsWithoutHeadings(lines: seq<string>)
    requires forall k :: 0 <= k < |lines| ==> !IsMonsterHeading(lines[k])
    ensures BookSections(lines) == []
  {
    if NamedHeads(lines, |lines|) != [] {
      var h := NamedHeads(lines, |lines|)[0];
      assert IsMonsterHeading(lines[h]);
    }
  }

  /** The lines between a heading and the next one open no section. */
  lemma {:induction false} NamedHeadsGap(lines: seq<string>, a: nat, b: nat)
    requires a <= |lines| && a <= b <= NextHeadingLine(lines, a)
    ensures NamedHeads(lines, b) == NamedHeads(lines, a)
    decreases b - a
  {
    if a < b {
      NamedHeadsGap(lines, a, b - 1);
      assert !IsMonsterHeading(lines[b - 1]);
      NamedIsHeading(lines[b - 1]);
      assert NamedHeads(lines, b) == NamedHeads(lines, b - 1) + [];
    }
  }

  lemma NamedIsHeading(line: string)
    ensures NamedHeading(line) ==> IsMonsterHeading(line)
  {
  }

  /** `sections` are the sections of the heading lines below `n`. */
  ghost predicate SectionsBelow(lines: seq<string>, sections: seq<BookSection>, n: nat)
    requires n <= |lines|
  {
    var hs := NamedHeads(lines, n);
    |sections| == |hs| && forall k :: 0 <= k < |sections| ==> sections[k] == SectionAt(lines, hs[k])
  }

  /** `flush`: close the open section, if it has a name. */
  method Flush(currentName: string, buffer: seq<string>, sections: seq<BookSection>)
    returns (flushed: seq<BookSection>)
    ensures flushed == if |currentName| > 0 then sections + [BookSection(currentName, Trim(Join(buffer, "\n")))] else sections
  {
    flushed := sections;
    if |currentName| > 0 {
      flushed := flushed + [BookSection(currentName, Trim(Join(buffer, "\n")))];
    }
  }

  /** What the first loop of `extractBookMonsters` knows after `i` lines,
      `h` being the last heading line among them (-1 if none): the
      sections of the earlier headings are closed, and the buffer holds
      the lines after `h` if that heading has a name. */
  ghost predicate Scanned(lines: seq<string>, i: nat, h: int, currentName: string, buffer: seq<string>,
                          sections: seq<BookSection>) {
    && i <= |lines| && -1 <= h < i
    && NextHeadingLine(lines, h + 1) >= i
    && (h == -1 ==> |currentName| == 0 && |buffer| == 0 && |sections| == 0)
    && (h >= 0 ==>
          && MonsterHeading(lines[h]) == Some(currentName)
          && |buffer| == (if |currentName| > 0 then i - h - 1 else 0)
          && (forall k :: 0 <= k < |buffer| ==> buffer[k] == lines[h + 1 + k])
          && SectionsBelow(lines, sections, h))
  }

  /** One pass of the loop over the lines: a heading line flushes the open
      section and opens its own; any other line joins the open section's
      buffer if that section has a name. */
  method ScanLine(lines: seq<string>, i: nat, ghost h: int, currentName: string, buffer: seq<string>,
                  sections: seq<BookSection>)
    returns (name': string, buffer': seq<string>, sections': seq<BookSection>, ghost h': int)
    requires i < |lines| && Scanned(lines, i, h, currentName, buffer, sections)
    ensures Scanned(lines, i + 1, h', name', buffer', sections')
  {
    var line := lines[i];
    var heading := MonsterHeading(line);
    if heading.Some? {
      sections' := Flush(currentName, buffer, sections);
      name', buffer', h' := heading.value, [], i;
      HeadingStep(lines, i, h, currentName, buffer, sections, sections');
    } else {
      name', buffer', sections', h' := currentName, buffer, sections, h;
      if |currentName| > 0 {
        buffer' := buffer + [line];
      }
      LineStep(lines, i, h, currentName, buffer, sections, buffer');
    }
  }

  lemma HeadingStep(lines: seq<string>, i: nat, h: int, name: string, buffer: seq<string>,
                    sections: seq<BookSection>, flushed: seq<BookSection>)
    requires i < |lines| && Scanned(lines, i, h, name, buffer, sections)
    requires MonsterHeading(lines[i]).Some?
    requires flushed == if |name| > 0 then sections + [BookSection(name, Trim(Join(buffer, "\n")))] else sections
    ensures Scanned(lines, i + 1, i, MonsterHeading(lines[i]).value, [], flushed)
  {
    if h >= 0 {
      CloseStep(lines, h, i, name, buffer, sections, flushed);
    } else {
      NamedHeadsGap(lines, 0, i);
    }
  }

  lemma LineStep(lines: seq<string>, i: nat, h: int, name: string, buffer: seq<string>,
                 sections: seq<BookSection>, buffer': seq<string>)
    requires i < |lines| && Scanned(lines, i, h, name, buffer, sections)
    requires !IsMonsterHeading(lines[i])
    requires buffer' == if |name| > 0 then buffer + [lines[i]] else buffer
    ensures Scanned(lines, i + 1, h, name, buffer', sections)
  {
    assert NextHeadingLine(lines, h + 1) != i;
    if h >= 0 && |name| > 0 {
      BufferGrows(lines, h, i, buffer);
    }
  }

  /** Appending line `i` to the buffer of the lines after `h` keeps it the
      lines after `h`. */
  lemma BufferGrows(lines: seq<string>, h: nat, i: nat, buffer: seq<string>)
    requires h < i < |lines| && |buffer| == i - h - 1
    requires forall k :: 0 <= k < |buffer| ==> buffer[k] == lines[h + 1 + k]
    ensures var b := buffer + [lines[i]];
      |b| == i - h && forall k :: 0 <= k < |b| ==> b[k] == lines[h + 1 + k]
  {
    var b := buffer + [lines[i]];
    forall k | 0 <= k < |b| ensures b[k] == lines[h + 1 + k] {
      if k < |buffer| {
        assert b[k] == buffer[k];
      } else {
        assert b[k] == lines[i] && h + 1 + k == i;
      }
    }
  }

  /** The heading lines below the next heading after `h` are those below
      `h`, and `h` itself if it opens a section. */
  lemma NamedHeadsClose(lines: seq<string>, h: nat, i: nat)
    requires h < |lines| && h < i <= NextHeadingLine(lines, h + 1)
    ensures NamedHeads(lines, i) == NamedHeads(lines, h) + if NamedHeading(lines[h]) then [h] else []
  {
    NamedHeadsGap(lines, h + 1, i);
    assert NamedHeads(lines, h + 1) == NamedHeads(lines, h) + if NamedHeading(lines[h]) then [h] else [];
  }

  /** The buffer gathered after a named heading, up to the next heading,
      is that heading's section body. */
  lemma SectionClosed(lines: seq<string>, h: nat, i: nat, name: string, buffer: seq<string>)
    requires h < i <= |lines| && NextHeadingLine(lines, h + 1) == i
    requires MonsterHeading(lines[h]) == Some(name) && |name| > 0
    requires |buffer| == i - h - 1 && forall k :: 0 <= k < |buffer| ==> buffer[k] == lines[h + 1 + k]
    ensures SectionAt(lines, h) == BookSection(name, Trim(Join(buffer, "\n")))
  {
    assert buffer == lines[h + 1..i];
  }

  /** Closing the section of the heading at line `h` when the next heading
      (or the end) is reached at `i`. */
  lemma CloseStep(lines: seq<string>, h: nat, i: nat, name: string, buffer: seq<string>,
                  sections: seq<BookSection>, flushed: seq<BookSection>)
    requires h < i <= |lines| && NextHeadingLine(lines, h + 1) >= i
    requires i < |lines| ==> IsMonsterHeading(lines[i])
    requires MonsterHeading(lines[h]) == Some(name)
    requires |buffer| == (if |name| > 0 then i - h - 1 else 0)
    requires forall k :: 0 <= k < |buffer| ==> buffer[k] == lines[h + 1 + k]
    requires SectionsBelow(lines, sections, h)
    requires flushed == if |name| > 0 then sections + [BookSection(name, Trim(Join(buffer, "\n")))] else sections
    ensures SectionsBelow(lines, flushed, i)
  {
    assert NextHeadingLine(lines, h + 1) == i;
    NamedHeadsClose(lines, h, i);
    if |name| > 0 {
      SectionClosed(lines, h, i, name, buffer);
      SectionsSnoc(lines, sections, h, i);
    }
  }

  /** Adding the section of the heading `h` to the sections below it. */
  lemma SectionsSnoc(lines: seq<string>, sections: seq<BookSection>, h: nat, i: nat)
    requires h < i <= |lines| && SectionsBelow(lines, sections, h)
    requires NamedHeads(lines, i) == NamedHeads(lines, h) + [h]
    ensures SectionsBelow(lines, sections + [SectionAt(lines, h)], i)
  {
    var hs, hs' := NamedHeads(lines, h), NamedHeads(lines, i);
    var flushed := sections + [SectionAt(lines, h)];
    forall k | 0 <= k < |flushed| ensures flushed[k] == SectionAt(lines, hs'[k]) {
      if k < |sections| {
        assert flushed[k] == sections[k] && hs'[k] == hs[k];
      } else {
        assert hs'[k] == h;
      }
    }
  }

  /** The final `flush` closes the last section. */
  lemma FinishStep(lines: seq<string>, h: int, name: string, buffer: seq<string>,
                   sections: seq<BookSection>, flushed: seq<BookSection>)
    requires Scanned(lines, |lines|, h, name, buffer, sections)
    requires flushed == if |name| > 0 then sections + [BookSection(name, Trim(Join(buffer, "\n")))] else sections
    ensures flushed == BookSections(lines)
  {
    if h >= 0 {
      CloseStep(lines, h, |lines|, name, buffer, sections, flushed);
    } else {
      NamedHeadsGap(lines, 0, |lines|);
    }
  }

  /** The first loop of `extractBookMonsters`. `currentName` is the empty
      string both before the first heading (where the source holds null)
      and after a heading whose name trims to empty: the source tests it
      only for truthiness. */
  method ScanSections(lines: seq<string>) returns (sections: seq<BookSection>)
    ensures sections == BookSections(lines)
  {
    var currentName: string := [];
    var buffer: seq<string> := [];
    sections := [];
    ghost var h: int := -1;
    var i := 0;
    while i < |lines|
      invariant Scanned(lines, i, h, currentName, buffer, sections)
    {
      currentName, buffer, sections, h := ScanLine(lines, i, h, currentName, buffer, sections);
      i := i + 1;
    }
    ghost var before := sections;
    sections := Flush(currentName, buffer, sections);
    FinishStep(lines, h, currentName, buffer, before, sections);
  }

  /** `/Armor Class|Hit Points|Speed|Saving Throws|Actions/i.test(text)`. */
  predicate HasStatMarkers(text: string) {
    ContainsFolded(text, "Armor Class") || ContainsFolded(text, "Hit Points") || ContainsFolded(text, "Speed")
    || ContainsFolded(text, "Saving Throws") || ContainsFolded(text, "Actions")
  }

  /** The value of `/label\s+(\d+)/i` tried at index `k` of `text`: the digit
      run after the label and the whitespace that follows it. */
  function StatAt(text: string, key: string, k: nat): (r: Option<nat>)
    ensures r.Some? ==> FoldedAt(text, key, k)
  {
    if !FoldedAt(text, key, k) then None
    else
      var e := RunEnd(text, k + |key|, IsSpace);
      if k + |key| < e < |text| && IsDigit(text[e]) then
        var d := RunEnd(text, e, IsDigit);
        assert forall i :: 0 <= i < d - e ==> text[e..d][i] == text[e + i];
        Some(DigitsToNat(text[e..d]))
      else None
  }

  /** The leftmost index from `k` on at which `/label\s+(\d+)/i` matches. */
  function FirstStatIndex(text: string, key: string, k: nat): (r: Option<nat>)
    ensures r.Some? ==> k <= r.value && StatAt(text, key, r.value).Some?
    ensures r.Some? ==> forall j :: k <= j < r.value ==> StatAt(text, key, j).None?
    ensures r.None? ==> forall j :: k <= j ==> StatAt(text, key, j).None?
    decreases |text| - k
  {
    if k + |key| > |text| then None
    else if StatAt(text, key, k).Some? then Some(k)
    else
      var r := FirstStatIndex(text, key, k + 1);
      assert r.Some? ==> forall j :: k <= j < r.value ==> StatAt(text, key, j).None? by {
        if r.Some? {
          forall j | k <= j < r.value ensures StatAt(text, key, j).None? {
            if j > k {
              assert k + 1 <= j < r.value;
            }
          }
        }
      }
      r
  }

  /** `text.match(/label\s+(\d+)/i)`, read with `Number`. */
  function Stat(text: string, key: string): (r: Option<nat>)
    ensures r.None? <==> forall j :: StatAt(text, key, j).None?
    ensures r.Some? ==> exists j: nat :: StatAt(text, key, j) == r && forall i :: 0 <= i < j ==> StatAt(text, key, i).None?
  {
    match FirstStatIndex(text, key, 0)
    case None => None
    case Some(j) => StatAt(text, key, j)
  }

  /** The monster a section with stat markers yields: a fresh id, the
      file's name, the section's name, the first 4000 characters of the
      stripped text, the armor class and hit points it states and the url
      of its first image. Where the image url is read from the section's
      text (a markdown image, else an `<img>` tag) is the parameter
      `image`. */
  function SectionMonster(id: string, fileName: string, s: BookSection, image: string -> Option<string>): (m: BookMonster)
    ensures m.id == id && m.fileName == fileName && m.name == s.name
    ensures var stripped := StripHtml(s.text);
      |m.sourceText| == Min(|stripped|, 4000) && m.sourceText == stripped[..|m.sourceText|]
    ensures m.ac == Stat(s.text, "Armor Class") && m.hp == Stat(s.text, "Hit Points")
    ensures m.imageUrl == image(s.text)
  {
    BookMonster(id, fileName, s.name, SliceTo(StripHtml(s.text), 4000), Stat(s.text, "Armor Class"),
                Stat(s.text, "Hit Points"), image(s.text))
  }

  /** How `m` was made from section `s` of file `fileName`, with id `id`. */
  predicate MonsterOf(m: BookMonster, id: string, fileName: string, s: BookSection, image: string -> Option<string>) {
    HasStatMarkers(s.text) && m == SectionMonster(id, fileName, s, image)
  }

  /** The monsters the sections in `secs` yield; the `k`-th one made gets
      the id `newId(k)` (the source's `crypto.randomUUID()`). */
  function MonstersOf(fileName: string, secs: seq<BookSection>, newId: nat -> string,
                      image: string -> Option<string>): (r: seq<BookMonster>)
    ensures |r| <= |secs|
    ensures forall k :: 0 <= k < |r| ==> r[k].fileName == fileName && |r[k].sourceText| <= 4000 && r[k].id == newId(k)
    decreases |secs|
  {
    if secs == [] then []
    else
      var s := secs[|secs| - 1];
      var rest := MonstersOf(fileName, secs[..|secs| - 1], newId, image);
      if HasStatMarkers(s.text) then rest + [SectionMonster(newId(|rest|), fileName, s, image)] else rest
  }

  /** The last section adds its monster, if it has stat markers. */
  lemma MonstersOfLast(fileName: string, secs: seq<BookSection>, newId: nat -> string, image: string -> Option<string>)
    requires secs != []
    ensures var s, rest := secs[|secs| - 1], MonstersOf(fileName, secs[..|secs| - 1], newId, image);
      MonstersOf(fileName, secs, newId, image)
        == rest + if HasStatMarkers(s.text) then [SectionMonster(newId(|rest|), fileName, s, image)] else []
  {
  }

  /** The monsters of all but the last section come first, unchanged. */
  lemma MonstersOfPrefix(fileName: string, secs: seq<BookSection>, newId: nat -> string, image: string -> Option<string>)
    requires secs != []
    ensures var rest, all := MonstersOf(fileName, secs[..|secs| - 1], newId, image), MonstersOf(fileName, secs, newId, image);
      |rest| <= |all| && forall k :: 0 <= k < |rest| ==> all[k] == rest[k]
  {
    MonstersOfLast(fileName, secs, newId, image);
  }

  /** The last section adds one monster exactly when it has stat markers. */
  lemma MonstersOfLastLength(fileName: string, secs: seq<BookSection>, newId: nat -> string,
                             image: string -> Option<string>)
    requires secs != []
    ensures |MonstersOf(fileName, secs, newId, image)|
      == |MonstersOf(fileName, secs[..|secs| - 1], newId, image)| + if HasStatMarkers(secs[|secs| - 1].text) then 1 else 0
  {
    MonstersOfLast(fileName, secs, newId, image);
  }

  /** Every monster comes from one of the sections, one that has stat
      markers, and the `k`-th carries the `k`-th fresh id. */
  lemma {:induction false} MonstersOfSections(fileName: string, secs: seq<BookSection>, newId: nat -> string,
                                               image: string -> Option<string>, k: nat)
    requires k < |MonstersOf(fileName, secs, newId, image)|
    ensures exists j :: 0 <= j < |secs| && MonsterOf(MonstersOf(fileName, secs, newId, image)[k], newId(k), fileName, secs[j], image)
    decreases |secs|
  {
    var init, s := secs[..|secs| - 1], secs[|secs| - 1];
    var rest, all := MonstersOf(fileName, init, newId, image), MonstersOf(fileName, secs, newId, image);
    MonstersOfPrefix(fileName, secs, newId, image);
    if k < |rest| {
      assert all[k] == rest[k];
      MonstersOfSections(fileName, init, newId, image, k);
      var j :| 0 <= j < |init| && MonsterOf(rest[k], newId(k), fileName, init[j], image);
      assert secs[j] == init[j];
    } else {
      MonstersOfLast(fileName, secs, newId, image);
      assert HasStatMarkers(s.text) && all[k] == SectionMonster(newId(k), fileName, s, image);
    }
  }

  /** A section with stat markers always yields a monster: the monsters are
      exactly one per such section. */
  lemma {:induction false} MonstersOfCount(fileName: string, secs: seq<BookSection>, newId: nat -> string,
                                            image: string -> Option<string>)
    ensures |MonstersOf(fileName, secs, newId, image)| == |Filter(secs, (s: BookSection) => HasStatMarkers(s.text))|
    decreases |secs|
  {
    if secs != [] {
      var p := (s: BookSection) => HasStatMarkers(s.text);
      var init := secs[..|secs| - 1];
      var s := secs[|secs| - 1];
      assert secs == init + [s];
      FilterAppend(init, [s], p);
      assert |Filter([s], p)| == if HasStatMarkers(s.text) then 1 else 0;
      MonstersOfCount(fileName, init, newId, image);
      MonstersOfLastLength(fileName, secs, newId, image);
    }
  }

  /** The monsters of one library file. */
  function BookMonsters(file: LibraryFile, newId: nat -> string, image: string -> Option<string>): seq<BookMonster> {
    MonstersOf(file.name, BookSections(Lines(file)), newId, image)
  }

  /** `extractBookMonsters`: every monster comes from a named section with
      stat markers, carries a fresh id, the file's name and a source text of
      at most 4000 characters. */
  method ExtractBookMonsters(file: LibraryFile, newId: nat -> string, image: string -> Option<string>)
    returns (monsters: seq<BookMonster>)
    ensures monsters == BookMonsters(file, newId, image)
    ensures forall k :: 0 <= k < |monsters| ==>
      |monsters[k].sourceText| <= 4000 && monsters[k].fileName == file.name && monsters[k].id == newId(k)
  {
    var lines := Split(NormalizeHeadings(file.content), '\n');
    var sections := ScanSections(lines);
    monsters := CollectMonsters(file.name, sections, newId, image);
  }

  /** The second loop of `extractBookMonsters`: one monster per section
      with stat markers, in order. */
  method CollectMonsters(fileName: string, sections: seq<BookSection>, newId: nat -> string,
                         image: string -> Option<string>) returns (monsters: seq<BookMonster>)
    ensures monsters == MonstersOf(fileName, sections, newId, image)
  {
    monsters := [];
    for i := 0 to |sections|
      invariant monsters == MonstersOf(fileName, sections[..i], newId, image)
    {
      var section := sections[i];
      var text := section.text;
      assert sections[..i + 1][..i] == sections[..i];
      if HasStatMarkers(text) {
        var stripped := StripHtml(text);
        var monster := BookMonster(newId(|monsters|), fileName, section.name, SliceTo(stripped, 4000),
                                   Stat(text, "Armor Class"), Stat(text, "Hit Points"), image(text));
        assert monster == SectionMonster(newId(|monsters|), fileName, section, image);
        monsters := monsters + [monster];
      }
    }
    assert sections[..|sections|] == sections;
  }

  /** `/player's handbook|phb|class|race|heritage/i.test(name)`. */
  predicate RulebookName(name: string) {
    ContainsFolded(name, "player's handbook") || ContainsFolded(name, "phb") || ContainsFolded(name, "class")
    || ContainsFolded(name, "race") || ContainsFolded(name, "heritage")
  }

  /** `[A-Za-z'’ -]`. */
  predicate NameChar(c: char) {
    IsAsciiLetter(c) || c == '\'' || c == '\U{2019}' || c == ' ' || c == '-'
  }

  /** The name `extractClassRaceNames` keeps from one line, if any: the
      line must match `/^##\s+([A-Z][A-Za-z'’ -]{2,40})$/`, and the trimmed
      group must not contain "chapter" and must have between 3 and 39
      characters. */
  function ClassRaceName(line: string): (r: Option<string>)
    ensures r.Some? ==> 2 < |r.value| < 40 && !Contains(Lower(r.value), "chapter")
    ensures r.Some? ==> IsAsciiUpper(r.value[0]) && forall i :: 0 <= i < |r.value| ==> NameChar(r.value[i])
  {
    if !HashesThenSpace(line) then None
    else
      var e := RunEnd(line, 2, IsSpace);
      if e < |line| && IsAsciiUpper(line[e]) && 2 <= |line| - e - 1 <= 40
         && (forall i | e < i < |line| :: NameChar(line[i])) then
        assert forall i :: 0 <= i < |line| - e ==> line[e..][i] == line[e + i];
        KeptName(line[e..])
      else None
  }

  /** The checks on the captured group: trimmed, no "chapter" in any case,
      between 3 and 39 characters. */
  function KeptName(group: string): (r: Option<string>)
    requires group != [] && IsAsciiUpper(group[0]) && forall i :: 0 < i < |group| ==> NameChar(group[i])
    ensures r.Some? ==> 2 < |r.value| < 40 && !Contains(Lower(r.value), "chapter")
    ensures r.Some? ==> IsAsciiUpper(r.value[0]) && forall i :: 0 <= i < |r.value| ==> NameChar(r.value[i])
  {
    var name := Trim(group);
    assert forall i :: 0 <= i < |name| ==> name[i] == group[i] by {
      assert !IsSpace(group[0]);
      assert TrimStart(group) == 0;
      TrimSlice(group);
    }
    assert NameChar(group[0]);
    if Contains(Lower(name), "chapter") then None
    else if 2 < |name| < 40 then Some(name)
    else None
  }

  /** What `extractClassRaceNames` keeps from each of `lines`. */
  function LineNames(lines: seq<string>): (r: seq<Option<string>>)
    ensures |r| == |lines|
  {
    seq(|lines|, j requires 0 <= j < |lines| => ClassRaceName(lines[j]))
  }

  /** File `file` yields the name `x`: its name marks it as a rulebook and
      one of its lines is kept as `x`. */
  ghost predicate FoundIn(file: LibraryFile, x: string) {
    RulebookName(file.name) && Some(x) in LineNames(Lines(file))
  }

  /** The inner loop of `extractClassRaceNames`: add the names of one
      file's lines to the set. */
  method AddClassRaceNames(lines: seq<string>, names: seq<string>) returns (names': seq<string>)
    requires Distinct(names)
    ensures Distinct(names')
    ensures forall x :: x in names' <==> x in names || Some(x) in LineNames(lines)
  {
    ghost var kept := LineNames(lines);
    names' := names;
    var j := 0;
    while j < |lines|
      invariant 0 <= j <= |lines|
      invariant Distinct(names')
      invariant forall x :: x in names' <==> x in names || Some(x) in kept[..j]
    {
      var name := ClassRaceName(lines[j]);
      assert kept[..j + 1] == kept[..j] + [name];
      if name.Some? && name.value !in names' {
        DistinctSnoc(names', name.value);
        names' := names' + [name.value];
      }
      j := j + 1;
    }
    assert kept[..j] == kept;
  }

  /** `extractClassRaceNames`: every name found in a rulebook file, each
      once, sorted. */
  method ExtractClassRaceNames(files: seq<LibraryFile>) returns (r: seq<string>)
    ensures SortedBy(r, StrLess) && Distinct(r)
    ensures forall x :: x in r <==> exists i :: 0 <= i < |files| && FoundIn(files[i], x)
  {
    var names: seq<string> := [];
    var i := 0;
    while i < |files|
      invariant 0 <= i <= |files|
      invariant Distinct(names)
      invariant forall x :: x in names <==> exists k :: 0 <= k < i && FoundIn(files[k], x)
    {
      ghost var before := names;
      if RulebookName(files[i].name) {
        var lines := Split(NormalizeHeadings(files[i].content), '\n');
        names := AddClassRaceNames(lines, names);
      }
      FoundStep(files, i, before, names);
      i := i + 1;
    }
    SortedNames(names);
    r := SortWith(names, StrLess);
  }

  lemma FoundStep(files: seq<LibraryFile>, i: nat, names: seq<string>, names': seq<string>)
    requires i < |files|
    requires forall x :: x in names <==> exists k :: 0 <= k < i && FoundIn(files[k], x)
    requires forall x :: x in names' <==> x in names || FoundIn(files[i], x)
    ensures forall x :: x in names' <==> exists k :: 0 <= k < i + 1 && FoundIn(files[k], x)
  {
    forall x ensures x in names' <==> exists k :: 0 <= k < i + 1 && FoundIn(files[k], x) {
      if FoundIn(files[i], x) {
        assert 0 <= i < i + 1 && FoundIn(files[i], x);
      }
    }
  }
}
