/** The two replace chains of src/services/libraryLoader.ts: `stripHtml`,
    which flattens a fragment of HTML-flavoured markdown to one line of
    text, and `normalizeHeadings`, which rewrites HTML headings as markdown
    ones. Each regular expression is written out as a function that says
    how long its match at the start of a string is; a global `replace`
    then tries it at every position, left to right, resuming after each
    match. */
module Markup {
  import opened Wrappers
  import opened Text

  /** No character of `s` is `c`. */
  predicate Lacks(s: string, c: char) {
    forall i :: 0 <= i < |s| ==> s[i] != c
  }

  lemma LacksAppend(a: string, b: string, c: char)
    requires Lacks(a, c) && Lacks(b, c)
    ensures Lacks(a + b, c)
  {
    var ab := a + b;
    forall i | 0 <= i < |ab|
      ensures ab[i] != c
    {
      if i < |a| {
        assert ab[i] == a[i];
      } else {
        assert ab[i] == b[i - |a|];
      }
    }
  }

  /** Every whitespace character is a plain space and is not followed by
      another whitespace character. */
  predicate Collapsed(s: string) {
    forall i :: 0 <= i < |s| && IsSpace(s[i]) ==> s[i] == ' ' && (i + 1 < |s| ==> !IsSpace(s[i + 1]))
  }

  /** What `stripHtml` promises of its result. */
  predicate Clean(s: string) {
    Trimmed(s) && Collapsed(s)
  }

  function NotGreater(c: char): bool {
    c != '>'
  }

  /** Length of a match of `<br\s*\/?>` (ignoring case) at the start of `s`,
      or 0 when there is none. */
  function BreakTagLength(s: string): (n: nat)
    ensures n == 0 || (4 <= n <= |s| && s[0] == '<')
  {
    if 3 <= |s| && s[0] == '<' && AsciiFold(s[1]) == 'b' && AsciiFold(s[2]) == 'r' then
      var k := 3 + RunLength(s[3..], IsSpace);
      if k < |s| && s[k] == '>' then k + 1
      else if k + 1 < |s| && s[k] == '/' && s[k + 1] == '>' then k + 2
      else 0
    else 0
  }

  /** `s.replace(/<br\s*\/?>/gi, '\n')`. */
  function ReplaceBreaks(s: string): (r: string)
    ensures |r| <= |s|
    decreases |s|
  {
    if s == [] then []
    else if BreakTagLength(s) > 0 then "\n" + ReplaceBreaks(s[BreakTagLength(s)..])
    else [s[0]] + ReplaceBreaks(s[1..])
  }

  /** Length of a match of `<[^>]+>` at the start of `s`, or 0. */
  function TagLength(s: string): (n: nat)
    ensures n == 0 || (3 <= n <= |s| && s[0] == '<')
  {
    if s != [] && s[0] == '<' then
      var k := 1 + RunLength(s[1..], NotGreater);
      if 1 < k < |s| then k + 1 else 0
    else 0
  }

  /** `s.replace(/<[^>]+>/g, ' ')`. */
  function ReplaceTags(s: string): (r: string)
    ensures |r| <= |s|
    decreases |s|
  {
    if s == [] then []
    else if TagLength(s) > 0 then " " + ReplaceTags(s[TagLength(s)..])
    else [s[0]] + ReplaceTags(s[1..])
  }

  /** `s.replace(/&nbsp;/gi, ' ')`. */
  function ReplaceNbsp(s: string): (r: string)
    ensures |r| <= |s|
    decreases |s|
  {
    if s == [] then []
    else if StartsWithFolded(s, "&nbsp;") then " " + ReplaceNbsp(s[6..])
    else [s[0]] + ReplaceNbsp(s[1..])
  }

  /** `s.replace(/\s+/g, ' ')`. */
  function CollapseSpaces(s: string): (r: string)
    ensures |r| <= |s|
    ensures Collapsed(r)
    ensures s != [] ==> r != [] && (IsSpace(r[0]) <==> IsSpace(s[0]))
    decreases |s|
  {
    if s == [] then []
    else if IsSpace(s[0]) then
      var n := RunLength(s, IsSpace);
      [' '] + CollapseSpaces(s[n..])
    else [s[0]] + CollapseSpaces(s[1..])
  }

  lemma CollapsedSlice(s: string, a: nat, b: nat)
    requires Collapsed(s) && a <= b <= |s|
    ensures Collapsed(s[a..b])
  {
    var t := s[a..b];
    assert forall i :: 0 <= i < |t| ==> t[i] == s[a + i];
  }

  /** `stripHtml`: line breaks and tags become whitespace, `&nbsp;` a space,
      whitespace runs one space, and the ends are trimmed. The result is
      never longer than the input. */
  function StripHtml(s: string): (r: string)
    ensures |r| <= |s|
    ensures Clean(r)
  {
    var t := CollapseSpaces(ReplaceNbsp(ReplaceTags(ReplaceBreaks(s))));
    var r := Trim(t);
    TrimSlice(t);
    CollapsedSlice(t, TrimStart(t), TrimStart(t) + |r|);
    r
  }

  lemma {:induction false} ReplaceBreaksOfPlain(s: string)
    requires Lacks(s, '<')
    ensures ReplaceBreaks(s) == s
    decreases |s|
  {
    if s != [] {
      ReplaceBreaksOfPlain(s[1..]);
      assert s == [s[0]] + s[1..];
    }
  }

  lemma {:induction false} ReplaceTagsOfPlain(s: string)
    requires Lacks(s, '<')
    ensures ReplaceTags(s) == s
    decreases |s|
  {
    if s != [] {
      ReplaceTagsOfPlain(s[1..]);
      assert s == [s[0]] + s[1..];
    }
  }

  lemma {:induction false} ReplaceNbspOfPlain(s: string)
    requires Lacks(s, '&')
    ensures ReplaceNbsp(s) == s
    decreases |s|
  {
    if s != [] {
      ReplaceNbspOfPlain(s[1..]);
      assert s == [s[0]] + s[1..];
    }
  }

  lemma {:induction false} CollapseSpacesOfCollapsed(s: string)
    requires Collapsed(s)
    ensures CollapseSpaces(s) == s
    decreases |s|
  {
    if s != [] {
      CollapsedSlice(s, 1, |s|);
      CollapseSpacesOfCollapsed(s[1..]);
      if IsSpace(s[0]) {
        assert RunLength(s, IsSpace) == 1;
      }
      assert s == [s[0]] + s[1..];
    }
  }

  /** Text that is already clean and holds no `<` or `&` comes through
      `stripHtml` unchanged. */
  lemma StripHtmlOfClean(s: string)
    requires Clean(s) && Lacks(s, '<') && Lacks(s, '&')
    ensures StripHtml(s) == s
  {
    ReplaceBreaksOfPlain(s);
    ReplaceTagsOfPlain(s);
    ReplaceNbspOfPlain(s);
    CollapseSpacesOfCollapsed(s);
    TrimOfTrimmed(s);
  }

  /** `stripHtml` followed by `trim`, as the chunker applies it, is
      `stripHtml`. */
  lemma TrimOfStripHtml(s: string)
    ensures Trim(StripHtml(s)) == StripHtml(s)
  {
    TrimOfTrimmed(StripHtml(s));
  }

  /** `s.replace(/\r\n/g, '\n')`. */
  function ReplaceCrLf(s: string): (r: string)
    ensures |r| <= |s|
    decreases |s|
  {
    if s == [] then []
    else if 2 <= |s| && s[0] == '\r' && s[1] == '\n' then "\n" + ReplaceCrLf(s[2..])
    else [s[0]] + ReplaceCrLf(s[1..])
  }

  /** `</hD>` (the `h` in either case) starts at index `i` of `s`: the
      closing tag that the back-reference `<\/h\1>` asks for. */
  predicate ClosesHeadingAt(s: string, i: nat, d: char) {
    i + 5 <= |s| && s[i] == '<' && s[i + 1] == '/' && AsciiFold(s[i + 2]) == 'h' && s[i + 3] == d && s[i + 4] == '>'
  }

  /** Where the lazy `(.*?)` that starts at index `i` stops: the first
      index from `i` on where a closing tag starts, as long as no line
      terminator comes before it. */
  function CloseIndex(s: string, d: char, i: nat): (r: Option<nat>)
    requires i <= |s|
    ensures r.Some? ==> i <= r.value && ClosesHeadingAt(s, r.value, d)
    ensures r.Some? ==> forall j :: i <= j < r.value ==> !IsLineTerminator(s[j]) && !ClosesHeadingAt(s, j, d)
    decreases |s| - i
  {
    if ClosesHeadingAt(s, i, d) then Some(i)
    else if i == |s| || IsLineTerminator(s[i]) then None
    else CloseIndex(s, d, i + 1)
  }

  /** A match of `<h([1-6])[^>]*>(.*?)<\/h\1>` (ignoring case): the level,
      the captured inner text and the length of the whole match. */
  datatype HeadingTag = HeadingTag(level: nat, inner: string, length: nat)

  function HeadingTagAt(s: string): (r: Option<HeadingTag>)
    ensures r.Some? ==> 1 <= r.value.level <= 6 && 9 <= r.value.length <= |s|
  {
    if 4 <= |s| && s[0] == '<' && AsciiFold(s[1]) == 'h' && '1' <= s[2] <= '6' then
      var j := RunEnd(s, 3, NotGreater);
      if j < |s| then
        match CloseIndex(s, s[2], j + 1)
        case Some(c) => Some(HeadingTag(DigitValue(s[2]), s[j + 1..c], c + 5))
        case None => None
      else None
    else None
  }

  function Repeat(c: char, n: nat): (r: string)
    ensures |r| == n && forall i :: 0 <= i < n ==> r[i] == c
  {
    seq(n, _ => c)
  }

  /** The markdown heading an HTML heading is rewritten to. */
  function HeadingReplacement(t: HeadingTag): string {
    "\n" + Repeat('#', t.level) + " " + StripHtml(t.inner) + "\n"
  }

  function ReplaceHeadingTags(s: string): string
    decreases |s|
  {
    if s == [] then []
    else
      match HeadingTagAt(s)
      case Some(t) => HeadingReplacement(t) + ReplaceHeadingTags(s[t.length..])
      case None => [s[0]] + ReplaceHeadingTags(s[1..])
  }

  /** `normalizeHeadings`: CRLF becomes LF, `<br>` a line break and every
      `<hN>…</hN>` a markdown heading of level N on a line of its own. */
  function NormalizeHeadings(raw: string): string {
    ReplaceHeadingTags(ReplaceBreaks(ReplaceCrLf(raw)))
  }

  lemma {:induction false} ReplaceCrLfOfPlain(s: string)
    requires Lacks(s, '\r')
    ensures ReplaceCrLf(s) == s
    decreases |s|
  {
    if s != [] {
      ReplaceCrLfOfPlain(s[1..]);
      assert s == [s[0]] + s[1..];
    }
  }

  lemma {:induction false} ReplaceHeadingTagsOfPlain(s: string)
    requires Lacks(s, '<')
    ensures ReplaceHeadingTags(s) == s
    decreases |s|
  {
    if s != [] {
      ReplaceHeadingTagsOfPlain(s[1..]);
      assert s == [s[0]] + s[1..];
    }
  }

  /** Markdown without carriage returns and without HTML tags passes
      through `normalizeHeadings` unchanged. */
  lemma NormalizeHeadingsOfPlain(s: string)
    requires Lacks(s, '<') && Lacks(s, '\r')
    ensures NormalizeHeadings(s) == s
  {
    ReplaceCrLfOfPlain(s);
    ReplaceBreaksOfPlain(s);
    ReplaceHeadingTagsOfPlain(s);
  }

  /** The lazy scan stops at the first closing tag when nothing before
      it is a `<` or a line terminator. */
  lemma {:induction false} CloseIndexOfPlain(s: string, d: char, i: nat, c: nat)
    requires i <= c && ClosesHeadingAt(s, c, d)
    requires forall j :: i <= j < c ==> s[j] != '<' && !IsLineTerminator(s[j])
    ensures CloseIndex(s, d, i) == Some(c)
    decreases c - i
  {
    if i < c {
      CloseIndexOfPlain(s, d, i + 1, c);
    }
  }

  /** An HTML heading is rewritten to a line holding `level` hashes, a space
      and its cleaned inner text. */
  lemma HeadingTagRewritten(level: nat, inner: string)
    requires 1 <= level <= 6 && Lacks(inner, '<') && Lacks(inner, '\n') && Lacks(inner, '\r')
      && Lacks(inner, '\U{2028}') && Lacks(inner, '\U{2029}')
    ensures var s := "<h" + [DigitChar(level)] + ">" + inner + "</h" + [DigitChar(level)] + ">";
      ReplaceHeadingTags(s) == "\n" + Repeat('#', level) + " " + StripHtml(inner) + "\n"
  {
    var d := DigitChar(level);
    var s := "<h" + [d] + ">" + inner + "</h" + [d] + ">";
    var c := 4 + |inner|;
    assert s[0] == '<' && s[1] == 'h' && s[2] == d && s[3] == '>';
    assert RunEnd(s, 3, NotGreater) == 3;
    assert forall j :: 4 <= j < c ==> s[j] == inner[j - 4];
    assert s[c..] == "</h" + [d] + ">";
    CloseIndexOfPlain(s, d, 4, c);
    assert DigitValue(d) == level;
    assert s[4..c] == inner;
    assert HeadingTagAt(s) == Some(HeadingTag(level, inner, |s|));
    assert s[|s|..] == [];
  }
}
