/** `parseMonstersFromMarkdown` of src/services/monsterParser.ts: a monster
    book is cut at its `##`-or-deeper headings, and every block becomes a
    monster with an id, the block's text, its challenge rating, its ability
    scores and its size, type and alignment. What the other field regular
    expressions read from a block is a parameter of the model. */
module MonsterParser {
  import opened Wrappers
  import opened Text
  import opened Markup
  import opened Chunker
  import opened Bestiary
  import opened Seqs

  // ---------------------------------------------------------------------
  // Challenge ratings

  /** `CR_MAP`: the fractional challenge ratings, and zero, by their text. */
  const CrMap: map<string, real> := map["0" := 0.0, "1/8" := 0.125, "1/4" := 0.25, "1/2" := 0.5]

  function IsSign(c: char): bool {
    c == '+' || c == '-'
  }

  function Pow10(n: nat): (r: nat)
    ensures r >= 1
  {
    if n == 0 then 1 else 10 * Pow10(n - 1)
  }

  /** A string of decimal digits read as the digits after a decimal point. */
  function FractionValue(ds: string): (r: real)
    requires forall i :: 0 <= i < |ds| ==> IsDigit(ds[i])
    ensures 0.0 <= r
  {
    DigitsToNat(ds) as real / Pow10(|ds|) as real
  }

  /** The exponent of `e[+-]digits` at index `f`, or 0 when there is none. */
  function ExponentAt(t: string, f: nat): int
    requires f <= |t|
  {
    if f < |t| && (t[f] == 'e' || t[f] == 'E') then
      var q := if f + 1 < |t| && IsSign(t[f + 1]) then f + 2 else f + 1;
      var g := RunEnd(t, q, IsDigit);
      if g == q then 0
      else if q == f + 2 && t[f + 1] == '-' then -(DigitsToNat(t[q..g]) as int)
      else DigitsToNat(t[q..g])
    else 0
  }

  function Scale(m: real, e: int): real {
    if e >= 0 then m * Pow10(e) as real else m / Pow10(-e) as real
  }

  /** `parseFloat`: after leading whitespace, the longest prefix that is a
      decimal literal (a sign, digits, a point and more digits, an
      exponent), or `None` (NaN) when there is none. */
  function ParseFloat(s: string): (r: Option<real>)
    ensures r.Some? ==> exists i :: TrimStart(s) <= i < |s| && IsDigit(s[i])
  {
    var a := TrimStart(s);
    var t := s[a..];
    var p := if t != [] && IsSign(t[0]) then 1 else 0;
    var w := RunEnd(t, p, IsDigit);
    var f := if w < |t| && t[w] == '.' then RunEnd(t, w + 1, IsDigit) else w;
    if w == p && f <= w + 1 then None
    else
      assert if w > p then IsDigit(s[a + p]) else IsDigit(s[a + w + 1]);
      var whole := DigitsToNat(t[p..w]) as real;
      var mantissa := if f > w then whole + FractionValue(t[w + 1..f]) else whole;
      var v := Scale(mantissa, ExponentAt(t, f));
      Some(if p == 1 && t[0] == '-' then -v else v)
  }

  /** The decimal digits of `n` are read back as `n`. */
  lemma ParseFloatOfNat(n: nat)
    ensures ParseFloat(NatToString(n)) == Some(n as real)
  {
    var s := NatToString(n);
    assert TrimStart(s) == 0;
    assert s[0..] == s;
    NatToStringRoundTrip(n);
    assert !IsSign(s[0]);
    var w := RunEnd(s, 0, IsDigit);
    assert w == |s|;
    assert s[0..w] == s;
    assert ExponentAt(s, w) == 0;
    assert Scale(n as real, 0) == n as real;
  }

  /** `parseCR`'s result: the trimmed text and its value. */
  datatype ChallengeRating = ChallengeRating(raw: Option<string>, value: Option<real>)

  /** `parseCR`: nothing for a missing or empty text; otherwise the trimmed
      text, with the value from `CR_MAP` for the four fractional ratings
      and zero, else the value of its numeric prefix. */
  function ParseCr(text: Option<string>): (r: ChallengeRating)
    ensures text.None? || text == Some("") ==> r == ChallengeRating(None, None)
    ensures text.Some? && text != Some("") ==> r.raw == Some(Trim(text.value))
    ensures r.raw.Some? && r.raw.value in CrMap ==> r.value == Some(CrMap[r.raw.value])
    ensures r.raw.Some? && r.raw.value !in CrMap ==> r.value == ParseFloat(r.raw.value)
  {
    if text.None? || text.value == [] then ChallengeRating(None, None)
    else
      var cleaned := Trim(text.value);
      if cleaned in CrMap then ChallengeRating(Some(cleaned), Some(CrMap[cleaned]))
      else ChallengeRating(Some(cleaned), ParseFloat(cleaned))
  }

  /** A text that is only whitespace keeps an empty `raw` and has no value. */
  lemma ParseCrOfBlank(text: string)
    requires text != [] && forall i :: 0 <= i < |text| ==> IsSpace(text[i])
    ensures ParseCr(Some(text)) == ChallengeRating(Some(""), None)
  {
    TrimAllSpaces(text);
    assert "" !in CrMap;
  }

  /** The only key of `CrMap` made of digits alone is `"0"`. */
  lemma DigitKeyIsZero(s: string)
    requires s in CrMap && forall i :: 0 <= i < |s| ==> IsDigit(s[i])
    ensures s == "0"
  {
    assert |s| == 1 || IsDigit(s[1]);
  }

  /** A whole number is read as itself. */
  lemma ParseCrOfNat(n: nat)
    ensures ParseCr(Some(NatToString(n))).value == Some(n as real)
  {
    var s := NatToString(n);
    TrimOfTrimmed(s);
    ParseFloatOfNat(n);
    if s in CrMap {
      DigitKeyIsZero(s);
      NatToStringRoundTrip(n);
    }
  }

  // ---------------------------------------------------------------------
  // Ability scores

  /** The abbreviations `parseAbilityScores` looks for, in its order. */
  const Abilities: seq<string> := ["STR", "DEX", "CON", "INT", "WIS", "CHA"]

  /** `new RegExp(abbr + '\\s+(\\d+[^\\s]*)', 'i')` matches at index `p`:
      the abbreviation in any case, whitespace, then a digit. */
  predicate AbilityAt(s: string, abbr: string, p: nat) {
    && FoldedAt(s, abbr, p)
    && p + |abbr| < |s| && IsSpace(s[p + |abbr|])
    && RunEnd(s, p + |abbr|, IsSpace) < |s| && IsDigit(s[RunEnd(s, p + |abbr|, IsSpace)])
  }

  /** The captured score of a match at `p`: the run of non-whitespace that
      starts with the digit after the whitespace. */
  function ScoreAt(s: string, abbr: string, p: nat): (r: string)
    requires AbilityAt(s, abbr, p)
    ensures r != [] && IsDigit(r[0]) && forall i :: 0 <= i < |r| ==> !IsSpace(r[i])
  {
    var q := RunEnd(s, p + |abbr|, IsSpace);
    s[q..RunEnd(s, q, NotSpace)]
  }

  /** The score at the leftmost match from index `p` on (trimmed, as
      `m[1].trim()`), or `None`. */
  function ScoreFrom(s: string, abbr: string, p: nat): Option<string>
    decreases |s| - p
  {
    if p >= |s| then None
    else if AbilityAt(s, abbr, p) then Some(Trim(ScoreAt(s, abbr, p)))
    else ScoreFrom(s, abbr, p + 1)
  }

  /** `block.match(re)` for one ability, its capture trimmed. */
  function ScoreOf(s: string, abbr: string): Option<string> {
    ScoreFrom(s, abbr, 0)
  }

  /** A score is found from `p` on exactly when the expression matches
      there, and it is the capture of the leftmost match, which `trim`
      leaves as it is. */
  lemma ScoreFromLeftmost(s: string, abbr: string, p: nat)
    ensures ScoreFrom(s, abbr, p).None? <==> forall j :: p <= j ==> !AbilityAt(s, abbr, j)
    ensures ScoreFrom(s, abbr, p).Some? ==> exists q: nat ::
      && p <= q
      && AbilityAt(s, abbr, q)
      && ScoreFrom(s, abbr, p).value == ScoreAt(s, abbr, q)
      && forall j :: p <= j < q ==> !AbilityAt(s, abbr, j)
  {
    ScoreFromNone(s, abbr, p);
    if ScoreFrom(s, abbr, p).Some? {
      var q := ScoreFromSome(s, abbr, p);
    }
  }

  lemma {:induction false} ScoreFromNone(s: string, abbr: string, p: nat)
    ensures ScoreFrom(s, abbr, p).None? <==> forall j :: p <= j ==> !AbilityAt(s, abbr, j)
    decreases |s| - p
  {
    if p >= |s| {
      forall j | p <= j
        ensures !AbilityAt(s, abbr, j)
      {
      }
    } else if !AbilityAt(s, abbr, p) {
      ScoreFromNone(s, abbr, p + 1);
      assert ScoreFrom(s, abbr, p) == ScoreFrom(s, abbr, p + 1);
      if ScoreFrom(s, abbr, p).None? {
        forall j | p <= j
          ensures !AbilityAt(s, abbr, j)
        {
          if j > p {
            assert p + 1 <= j;
          }
        }
      }
    }
  }

  /** The position of the leftmost match from `p` on, when a score is found. */
  lemma {:induction false} ScoreFromSome(s: string, abbr: string, p: nat) returns (q: nat)
    requires ScoreFrom(s, abbr, p).Some?
    ensures p <= q && AbilityAt(s, abbr, q) && ScoreFrom(s, abbr, p).value == ScoreAt(s, abbr, q)
    ensures forall j :: p <= j < q ==> !AbilityAt(s, abbr, j)
    decreases |s| - p
  {
    if AbilityAt(s, abbr, p) {
      var score := ScoreAt(s, abbr, p);
      assert Trimmed(score);
      TrimOfTrimmed(score);
      assert ScoreFrom(s, abbr, p) == Some(Trim(score));
      q := p;
    } else {
      assert ScoreFrom(s, abbr, p) == ScoreFrom(s, abbr, p + 1);
      q := ScoreFromSome(s, abbr, p + 1);
      forall j | p <= j < q ensures !AbilityAt(s, abbr, j) {
        if j == p {
        } else {
          assert p + 1 <= j < q;
        }
      }
    }
  }

  /** A score is found exactly when the expression matches somewhere, and
      it is the capture of the leftmost match. */
  lemma ScoreOfLeftmost(s: string, abbr: string)
    ensures ScoreOf(s, abbr).None? <==> forall p :: !AbilityAt(s, abbr, p)
    ensures ScoreOf(s, abbr).Some? ==> exists p: nat ::
      && AbilityAt(s, abbr, p)
      && ScoreOf(s, abbr).value == ScoreAt(s, abbr, p)
      && forall j :: 0 <= j < p ==> !AbilityAt(s, abbr, j)
  {
    ScoreFromLeftmost(s, abbr, 0);
  }

  /** The score of `Abilities[k]` in a set of scores. */
  function Score(a: AbilityScores, k: nat): Option<string>
    requires k < |Abilities|
  {
    match k
    case 0 => a.strength
    case 1 => a.dexterity
    case 2 => a.constitution
    case 3 => a.intelligence
    case 4 => a.wisdom
    case 5 => a.charisma
  }

  /** The score of every ability, in the order of `Abilities`. */
  function ScoresIn(s: string): (r: seq<Option<string>>)
    ensures |r| == |Abilities|
  {
    seq(|Abilities|, k requires 0 <= k < |Abilities| => ScoreOf(s, Abilities[k]))
  }

  /** What `parseAbilityScores` returns for a text. */
  function AbilityScoresOf(s: string): Option<AbilityScores> {
    var f := ScoresIn(s);
    if forall k :: 0 <= k < |f| ==> f[k].None? then None
    else Some(AbilityScores(f[0], f[1], f[2], f[3], f[4], f[5]))
  }

  /** `undefined` exactly when not one of the six abilities matches;
      otherwise every ability holds its leftmost score, or `None`. */
  lemma AbilityScoresFound(s: string)
    ensures AbilityScoresOf(s).None? <==> forall k, p :: 0 <= k < |Abilities| ==> !AbilityAt(s, Abilities[k], p)
    ensures AbilityScoresOf(s).Some? ==> forall k :: 0 <= k < |Abilities| ==> Score(AbilityScoresOf(s).value, k) == ScoresIn(s)[k]
  {
    var f := ScoresIn(s);
    forall k | 0 <= k < |Abilities|
      ensures f[k].None? <==> forall p :: !AbilityAt(s, Abilities[k], p)
    {
      ScoreOfLeftmost(s, Abilities[k]);
    }
  }

  /** `parseAbilityScores`: looks for each ability in turn and keeps the
      ones found. */
  method ParseAbilityScores(block: string) returns (r: Option<AbilityScores>)
    ensures r == AbilityScoresOf(block)
  {
    var found: seq<Option<string>> := [];
    var keys: nat := 0;
    for k := 0 to |Abilities|
      invariant found == ScoresIn(block)[..k]
      invariant keys == 0 <==> forall j :: 0 <= j < k ==> found[j].None?
    {
      var m := ScoreOf(block, Abilities[k]);
      assert ScoresIn(block)[..k + 1] == ScoresIn(block)[..k] + [m];
      ghost var before := found;
      found := found + [m];
      assert forall j :: 0 <= j < k ==> found[j] == before[j];
      assert found[k] == m;
      if m.Some? {
        keys := keys + 1;
        assert keys != 0;
        assert !(forall j :: 0 <= j < k + 1 ==> found[j].None?);
      } else {
        assert (forall j :: 0 <= j < k + 1 ==> found[j].None?) <==> (forall j :: 0 <= j < k ==> before[j].None?);
      }
    }
    if keys == 0 {
      return None;
    }
    r := Some(AbilityScores(found[0], found[1], found[2], found[3], found[4], found[5]));
  }

  // ---------------------------------------------------------------------
  // Headings

  /** The largest index in `[lo, hi)` whose character is not a line
      terminator. */
  function LastNonTerminator(s: string, lo: nat, hi: nat): (r: Option<nat>)
    requires lo <= hi <= |s|
    ensures r.Some? ==> lo <= r.value < hi && !IsLineTerminator(s[r.value])
    ensures r.None? ==> forall i :: lo <= i < hi ==> IsLineTerminator(s[i])
    decreases hi
  {
    if lo == hi then None
    else if !IsLineTerminator(s[hi - 1]) then Some(hi - 1)
    else LastNonTerminator(s, lo, hi - 1)
  }

  /** The match of `/^##+\s+(.+)$/m` tried at index `p`; `textStart` is
      where the capture starts. The greedy `\s+` may run over line breaks;
      when it runs to the end of the text it gives back characters until
      `.+` can match one that is not a line terminator. */
  function MonsterHeadingAt(s: string, p: nat): (r: Option<HeadingMatch>)
    ensures r.Some? ==> r.value.index == p && p + 1 < r.value.textStart < r.value.end <= |s|
    ensures r.Some? ==> AtLineStart(s, p) && s[p] == '#' && s[p + 1] == '#'
    ensures r.Some? ==> r.value.end == |s| || IsLineTerminator(s[r.value.end])
  {
    if p < |s| && AtLineStart(s, p) then
      var h := RunEnd(s, p, IsHash);
      if 2 <= h - p && h < |s| && IsSpace(s[h]) then
        var q := RunEnd(s, h, IsSpace);
        if q < |s| then Some(HeadingMatch(p, q, RunEnd(s, q, NotLineTerminator)))
        else
          match LastNonTerminator(s, h + 1, q)
          case Some(j) => Some(HeadingMatch(p, j, RunEnd(s, j, NotLineTerminator)))
          case None => None
      else None
    else None
  }

  /** `[...normalized.matchAll(HEADING_REGEX)]` from index `from` on. */
  function MonsterHeadingsFrom(s: string, from: nat): (r: seq<HeadingMatch>)
    requires from <= |s|
    ensures Spaced(s, r)
    ensures forall k :: 0 <= k < |r| ==> from <= r[k].index
    ensures forall k {:trigger MonsterHeadingAt(s, r[k].index)} :: 0 <= k < |r| ==> MonsterHeadingAt(s, r[k].index) == Some(r[k])
    decreases |s| - from
  {
    if from == |s| then []
    else
      match MonsterHeadingAt(s, from)
      case Some(m) =>
        var rest := MonsterHeadingsFrom(s, m.end);
        SpacedCons(s, m, rest);
        [m] + rest
      case None => MonsterHeadingsFrom(s, from + 1)
  }

  /** Every index at which the heading expression matches is a match of
      the scan or lies inside one. */
  lemma {:induction false} MonsterHeadingsComplete(s: string, from: nat, p: nat)
    requires from <= p < |s| && MonsterHeadingAt(s, p).Some?
    ensures Covers(MonsterHeadingsFrom(s, from), p)
    decreases |s| - from
  {
    match MonsterHeadingAt(s, from)
    case Some(m) =>
      if p >= m.end {
        MonsterHeadingsComplete(s, m.end, p);
      }
      CoversCons(m, MonsterHeadingsFrom(s, m.end), p);
    case None =>
      if p == from {
        assert false;
      }
      MonsterHeadingsComplete(s, from + 1, p);
  }

  // ---------------------------------------------------------------------
  // Size, type and alignment

  function NotNewline(c: char): bool {
    c != '\n'
  }

  /** The size word `w` matches at `p` (ignoring case) and a character of
      the line follows it. */
  predicate WordAt(s: string, p: nat, w: string) {
    FoldedAt(s, w, p) && p + |w| < |s| && s[p + |w|] != '\n'
  }

  /** A size word matches only where a letter stands. */
  lemma WordAtLetter(s: string, p: nat, w: string)
    requires WordAt(s, p, w) && |w| > 0 && IsAsciiLetter(w[0])
    ensures IsAsciiLetter(s[p])
  {
    assert AsciiFold(s[p + 0]) == AsciiFold(w[0]);
  }

  /** `(Tiny|Small|Medium|Large|Huge|Gargantuan)[^\n]` tried at `p`: the
      length of the first alternative that matches, or 0. */
  function SizeWordLength(s: string, p: nat): (n: nat)
    ensures n > 0 ==> p + n < |s| && s[p + n] != '\n' && IsAsciiLetter(s[p])
  {
    if WordAt(s, p, "Tiny") then WordAtLetter(s, p, "Tiny"); 4
    else if WordAt(s, p, "Small") then WordAtLetter(s, p, "Small"); 5
    else if WordAt(s, p, "Medium") then WordAtLetter(s, p, "Medium"); 6
    else if WordAt(s, p, "Large") then WordAtLetter(s, p, "Large"); 5
    else if WordAt(s, p, "Huge") then WordAtLetter(s, p, "Huge"); 4
    else if WordAt(s, p, "Gargantuan") then WordAtLetter(s, p, "Gargantuan"); 10
    else 0
  }

  /** `/^(Tiny|Small|Medium|Large|Huge|Gargantuan)[^\n]+/im` matches at `p`. */
  predicate TypeLineAt(s: string, p: nat) {
    AtLineStart(s, p) && SizeWordLength(s, p) > 0
  }

  function FirstTypeLine(s: string, p: nat): (r: Option<nat>)
    ensures r.Some? ==> p <= r.value && TypeLineAt(s, r.value)
    ensures r.Some? ==> forall j :: p <= j < r.value ==> !TypeLineAt(s, j)
    decreases |s| - p
  {
    if p >= |s| then None
    else if TypeLineAt(s, p) then Some(p)
    else FirstTypeLine(s, p + 1)
  }

  /** `(text.match(/^(Tiny|...|Gargantuan)[^\n]+/im) || [])[0]`: from the
      size word of the first match to the end of its line. */
  function TypeLineIn(s: string): (r: Option<string>)
    ensures r.Some? ==> exists p :: TypeLineAt(s, p)
  {
    match FirstTypeLine(s, 0)
    case Some(p) => Some(s[p..RunEnd(s, p + SizeWordLength(s, p), NotNewline)])
    case None => None
  }

  /** A string keeps its first character through `trim` when that is not
      whitespace. */
  lemma TrimKeepsFirst(s: string)
    requires s != [] && !IsSpace(s[0])
    ensures Trim(s) != [] && Trim(s)[0] == s[0]
  {
    assert TrimStart(s) == 0;
  }

  /** `stripTags` keeps a first character that starts no tag or entity and
      is not whitespace. */
  lemma StripHtmlKeepsFirst(s: string)
    requires s != [] && s[0] != '<' && s[0] != '&' && !IsSpace(s[0])
    ensures StripHtml(s) != [] && StripHtml(s)[0] == s[0]
  {
    var b := ReplaceBreaks(s);
    assert b[0] == s[0];
    var t := ReplaceTags(b);
    assert t[0] == s[0];
    var n := ReplaceNbsp(t);
    assert !StartsWithFolded(t, "&nbsp;");
    assert n[0] == s[0];
    var c := CollapseSpaces(n);
    assert c[0] == s[0];
    TrimKeepsFirst(c);
  }

  /** A flattened text that starts with `#` has no type line: it holds no
      line break, so `^` matches only at its start, where the `#` stands. */
  lemma TypeLineNeverFound(plain: string)
    requires Clean(plain) && plain != [] && plain[0] == '#'
    ensures TypeLineIn(plain) == None
  {
    forall p: nat | 0 < p <= |plain|
      ensures !AtLineStart(plain, p)
    {
      assert IsSpace(plain[p - 1]) ==> plain[p - 1] == ' ';
    }
  }

  /** The block's lines, each flattened as `stripTags` does. */
  function FlatLines(block: string): (r: seq<string>) {
    var lines := Split(block, '\n');
    seq(|lines|, k requires 0 <= k < |lines| => StripHtml(lines[k]))
  }

  /** A line that starts with a size word and goes on after it. */
  predicate SizeLine(line: string) {
    SizeWordLength(line, 0) > 0
  }

  /** The index of the first size line from `k` on. */
  function FirstSizeLine(lines: seq<string>, k: nat): (r: Option<nat>)
    requires k <= |lines|
    ensures r.Some? ==> k <= r.value < |lines| && SizeLine(lines[r.value])
    ensures r.Some? ==> forall j :: k <= j < r.value ==> !SizeLine(lines[j])
    ensures r.None? ==> forall j :: k <= j < |lines| ==> !SizeLine(lines[j])
    decreases |lines| - k
  {
    if k == |lines| then None
    else if SizeLine(lines[k]) then Some(k)
    else FirstSizeLine(lines, k + 1)
  }

  /** Corrected: the type line is looked for in the block line by line,
      each line flattened as `stripTags` does, so that `^` can match at the
      start of every line: the first flattened line that starts with a
      size word, all of it. */
  function TypeLineOfLines(block: string): Option<string> {
    var lines := FlatLines(block);
    match FirstSizeLine(lines, 0)
    case Some(k) => Some(lines[k])
    case None => None
  }

  /** The corrected search finds a type line exactly when some line of the
      block starts with a size word, and then it is the first such line;
      on that line the expression of the source matches all of it. */
  lemma TypeLineOfLinesFinds(block: string)
    ensures var lines := FlatLines(block);
      TypeLineOfLines(block).Some? <==> exists k :: 0 <= k < |lines| && SizeLine(lines[k])
    ensures var lines := FlatLines(block);
      TypeLineOfLines(block).Some? ==> exists k ::
        && 0 <= k < |lines|
        && TypeLineOfLines(block) == Some(lines[k])
        && TypeLineIn(lines[k]) == Some(lines[k])
        && forall j :: 0 <= j < k ==> !SizeLine(lines[j])
  {
    var lines := FlatLines(block);
    match FirstSizeLine(lines, 0)
    case Some(k) =>
      TypeLineOfOneLine(lines[k]);
    case None =>
  }

  /** On a line without line breaks the expression matches exactly at the
      start of a size line, and then matches all of the line. */
  lemma TypeLineOfOneLine(line: string)
    requires Clean(line) && SizeLine(line)
    ensures TypeLineIn(line) == Some(line)
  {
    assert TypeLineAt(line, 0);
    assert FirstTypeLine(line, 0) == Some(0);
    var e := RunEnd(line, SizeWordLength(line, 0), NotNewline);
    assert e == |line|;
    assert line[0..|line|] == line;
  }

  /** Size, type and alignment as read from a type line. */
  datatype Kind = Kind(size: Option<string>, creatureType: Option<string>, alignment: Option<string>)

  /** `typeLine.split(' ')[0]`. */
  function LineSize(line: string): string {
    Split(line, ' ')[0]
  }

  /** `typeLine.split(',')[0].split(' ').slice(1).join(' ')`. */
  function LineType(line: string): string {
    Join(Split(Split(line, ',')[0], ' ')[1..], " ")
  }

  /** `typeLine.split(',').slice(1).join(',').trim()` when the line holds a
      comma. */
  function LineAlignment(line: string): (r: Option<string>)
    ensures r.Some? <==> Contains(line, ",")
  {
    if Contains(line, ",") then Some(Trim(Join(Split(line, ',')[1..], ","))) else None
  }

  /** Size, type and alignment of a type line, or none of them when there
      is no type line. */
  function KindOf(typeLine: Option<string>): (r: Kind)
    ensures typeLine.None? ==> r == Kind(None, None, None)
    ensures typeLine.Some? ==> r.size.Some? && r.creatureType.Some?
    ensures typeLine.Some? ==> (r.alignment.Some? <==> Contains(typeLine.value, ","))
  {
    match typeLine
    case None => Kind(None, None, None)
    case Some(line) => Kind(Some(LineSize(line)), Some(LineType(line)), LineAlignment(line))
  }

  /** Splitting at the first separator: the piece before it, then the
      pieces of the rest. */
  lemma SplitFirst(a: string, b: string, c: char)
    requires Lacks(a, c)
    ensures Split(a + [c] + b, c) == [a] + Split(b, c)
  {
    var s := a + [c] + b;
    RunEndStops(s, 0, Other(c), |a|);
    assert s[..|a|] == a;
    assert s[|a| + 1..] == b;
  }

  /** A string without the separator is one piece. */
  lemma SplitNone(a: string, c: char)
    requires Lacks(a, c)
    ensures Split(a, c) == [a]
  {
  }

  /** The size is the text before the first space. */
  lemma LineSizeOf(size: string, rest: string)
    requires Lacks(size, ' ')
    ensures LineSize(size + " " + rest) == size
  {
    assert size + " " + rest == size + [' '] + rest;
    SplitFirst(size, rest, ' ');
  }

  /** The type is the text between the first space and the first comma. */
  lemma LineTypeOf(size: string, kind: string, alignment: string)
    requires Lacks(size, ' ') && Lacks(size, ',') && Lacks(kind, ',')
    ensures LineType(size + " " + kind + "," + alignment) == kind
  {
    var head := size + " " + kind;
    assert Lacks(head, ',');
    assert size + " " + kind + "," + alignment == head + [','] + alignment;
    SplitFirst(head, alignment, ',');
    assert head == size + [' '] + kind;
    SplitFirst(size, kind, ' ');
    assert Split(head, ' ')[1..] == Split(kind, ' ');
    JoinSplit(kind, ' ');
  }

  /** The alignment is the trimmed text after the first comma, further
      commas included. */
  lemma LineAlignmentOf(head: string, alignment: string)
    requires Lacks(head, ',')
    ensures LineAlignment(head + "," + alignment) == Some(Trim(alignment))
  {
    var line := head + "," + alignment;
    assert line == head + [','] + alignment;
    SplitFirst(head, alignment, ',');
    assert Split(line, ',')[1..] == Split(alignment, ',');
    JoinSplit(alignment, ',');
    assert OccursAt(line, ",", |head|);
  }

  /** A type line `size kind, alignment` gives back its three parts. */
  lemma KindOfTypeLine(size: string, kind: string, alignment: string)
    requires Lacks(size, ' ') && Lacks(size, ',') && Lacks(kind, ',')
    ensures KindOf(Some(size + " " + kind + "," + alignment)) == Kind(Some(size), Some(kind), Some(Trim(alignment)))
  {
    var line := size + " " + kind + "," + alignment;
    assert line == size + " " + (kind + "," + alignment);
    LineSizeOf(size, kind + "," + alignment);
    LineTypeOf(size, kind, alignment);
    assert line == (size + " " + kind) + "," + alignment;
    LacksAppend(size + " ", kind, ',');
    LineAlignmentOf(size + " " + kind, alignment);
  }

  // ---------------------------------------------------------------------
  // Monsters

  /** What the remaining field regular expressions read from a block (and
      from its flattened text): the stat lines, the text after
      `Challenge`, the habitat text and the image urls. */
  datatype BlockFields = BlockFields(
    stats: StatLines,
    challengeText: Option<string>,
    fluffRaw: Option<string>,
    imageUrls: seq<string>)

  /** `crRaw ? crRaw.split(' ')[0] : undefined`. */
  function ChallengeWord(challengeText: Option<string>): (r: Option<string>)
    ensures r.Some? ==> Lacks(r.value, ' ')
    ensures r.Some? <==> challengeText.Some? && challengeText.value != []
  {
    if challengeText.Some? && challengeText.value != [] then Some(Split(challengeText.value, ' ')[0]) else None
  }

  /** `${name}_${sourceId}_${i}`. */
  function MonsterId(name: string, sourceId: string, i: nat): string {
    name + "_" + sourceId + "_" + NatToString(i)
  }

  /** The `k`-th block: from the heading's start to the next heading's
      start (or the end of the text), trimmed. */
  function BlockOf(s: string, hs: seq<HeadingMatch>, k: nat): string
    requires Spaced(s, hs) && k < |hs|
  {
    Trim(s[hs[k].index..NextIndex(s, hs, k)])
  }

  /** The monster object literal of `parseMonstersFromMarkdown`, from the
      pieces computed for one block. */
  function MonsterFrom(name: string, block: string, k: nat, sourceFile: string, sourceId: string,
                       fields: BlockFields, kind: Kind, cr: ChallengeRating,
                       scores: Option<AbilityScores>): (m: Monster)
    ensures m.id == MonsterId(name, sourceId, k) && m.name == name && m.rawBlock == block
    ensures m.sourceId == sourceId && m.sourceFile == sourceFile && m.extraFluff == Some([])
    ensures m.section.None? && m.subtype.None? && m.abilityScores == scores
  {
    Monster(MonsterId(name, sourceId, k), name, sourceId, sourceFile, None, kind.size, kind.creatureType, None,
            kind.alignment, fields.stats, scores, cr.raw, cr.value, fields.fluffRaw, Some([]), fields.imageUrls, block)
  }

  /** The monster of the `k`-th heading. */
  function MonsterAt(s: string, hs: seq<HeadingMatch>, k: nat, sourceFile: string, sourceId: string,
                     read: string -> BlockFields): Monster
    requires Spaced(s, hs) && k < |hs|
  {
    var block := BlockOf(s, hs, k);
    var fields := read(block);
    var plain := StripHtml(block);
    MonsterFrom(Title(s, hs[k]), block, k, sourceFile, sourceId, fields, KindOf(TypeLineIn(plain)),
                ParseCr(ChallengeWord(fields.challengeText)), AbilityScoresOf(plain))
  }

  /** The body of the loop of `parseMonstersFromMarkdown`: the block of
      the `i`-th heading runs up to the next heading, or to the end of the
      text, and is trimmed; its ability scores are read from its plain
      text. */
  method ParseBlock(normalized: string, matches: seq<HeadingMatch>, i: nat, sourceFile: string,
                    sourceId: string, read: string -> BlockFields) returns (m: Monster)
    requires Spaced(normalized, matches) && i < |matches|
    ensures m == MonsterFn(normalized, matches, sourceFile, sourceId, read)(i)
  {
    var heading := matches[i];
    var name := Title(normalized, heading);
    var start := heading.index;
    var end := if i + 1 < |matches| then matches[i + 1].index else |normalized|;
    assert end == NextIndex(normalized, matches, i);
    var block := Trim(normalized[start..end]);
    var plain := StripHtml(block);
    var fields := read(block);
    var typeLine := TypeLineIn(plain);
    var kind := KindOf(typeLine);
    var cr := ParseCr(ChallengeWord(fields.challengeText));
    var abilityScores := ParseAbilityScores(plain);
    m := MonsterFrom(name, block, i, sourceFile, sourceId, fields, kind, cr, abilityScores);
  }

  /** The monster of each heading, as a function of the heading's
      position. */
  function MonsterFn(s: string, hs: seq<HeadingMatch>, sourceFile: string, sourceId: string,
                     read: string -> BlockFields): nat --> Monster
  {
    (k: nat) requires Spaced(s, hs) && k < |hs| => MonsterAt(s, hs, k, sourceFile, sourceId, read)
  }

  /** The `k`-th monster parsed is the monster of the `k`-th heading. */
  lemma ParsedMonsterAt(s: string, hs: seq<HeadingMatch>, sourceFile: string, sourceId: string,
                        read: string -> BlockFields, k: nat)
    requires Spaced(s, hs) && k < |hs|
    ensures Tabulate(|hs|, MonsterFn(s, hs, sourceFile, sourceId, read))[k] == MonsterAt(s, hs, k, sourceFile, sourceId, read)
  {
    TabulateAt(|hs|, MonsterFn(s, hs, sourceFile, sourceId, read), k);
  }

  /** `parseMonstersFromMarkdown`: one monster per heading match, in
      order. */
  method ParseMonstersFromMarkdown(markdown: string, sourceFile: string, sourceId: string,
                                   read: string -> BlockFields) returns (monsters: seq<Monster>)
    ensures var s := ReplaceCrLf(markdown); var hs := MonsterHeadingsFrom(s, 0);
      monsters == Tabulate(|hs|, MonsterFn(s, hs, sourceFile, sourceId, read))
  {
    var normalized := ReplaceCrLf(markdown);
    var matches := MonsterHeadingsFrom(normalized, 0);
    ghost var f := MonsterFn(normalized, matches, sourceFile, sourceId, read);
    assert forall k :: 0 <= k < |matches| ==> f.requires(k);
    monsters := [];
    for i := 0 to |matches|
      invariant monsters == Tabulate(i, f)
    {
      var m := ParseBlock(normalized, matches, i, sourceFile, sourceId, read);
      monsters := monsters + [m];
    }
  }

  /** Two strings that each end in a maximal run of digits after a
      non-digit are equal only if those runs are. */
  lemma DigitSuffixEqual(p1: string, d1: string, p2: string, d2: string)
    requires p1 != [] && p2 != [] && !IsDigit(p1[|p1| - 1]) && !IsDigit(p2[|p2| - 1])
    requires forall i :: 0 <= i < |d1| ==> IsDigit(d1[i])
    requires forall i :: 0 <= i < |d2| ==> IsDigit(d2[i])
    requires p1 + d1 == p2 + d2
    ensures d1 == d2
  {
    var s := p1 + d1;
    assert d1 == s[|p1|..];
    assert d2 == s[|p2|..];
  }

  /** Ids that end in different indices differ, whatever the names. */
  lemma MonsterIdsDistinct(name1: string, name2: string, sourceId: string, i: nat, j: nat)
    requires i != j
    ensures MonsterId(name1, sourceId, i) != MonsterId(name2, sourceId, j)
  {
    if MonsterId(name1, sourceId, i) == MonsterId(name2, sourceId, j) {
      var p1 := name1 + "_" + sourceId + "_";
      var p2 := name2 + "_" + sourceId + "_";
      DigitSuffixEqual(p1, NatToString(i), p2, NatToString(j));
      NatToStringInjective(i, j);
    }
  }

  /** The monsters of one book have pairwise different ids. */
  lemma ParsedIdsDistinct(s: string, hs: seq<HeadingMatch>, sourceFile: string, sourceId: string,
                          read: string -> BlockFields, i: nat, j: nat)
    requires Spaced(s, hs) && i < |hs| && j < |hs| && i != j
    ensures MonsterAt(s, hs, i, sourceFile, sourceId, read).id != MonsterAt(s, hs, j, sourceFile, sourceId, read).id
  {
    MonsterIdsDistinct(Title(s, hs[i]), Title(s, hs[j]), sourceId, i, j);
  }

  /** Every block starts with the `##` of its heading. */
  lemma BlockStartsWithHeading(s: string, hs: seq<HeadingMatch>, k: nat)
    requires Spaced(s, hs) && k < |hs| && MonsterHeadingAt(s, hs[k].index) == Some(hs[k])
    ensures var b := BlockOf(s, hs, k); |b| >= 2 && b[0] == '#' && b[1] == '#'
  {
    var x := s[hs[k].index..NextIndex(s, hs, k)];
    assert x[0] == '#' && x[1] == '#';
    assert TrimStart(x) == 0;
    assert TrimEnd(x, 0, |x|) >= 2;
  }

  /** As written, no monster of a book gets a size, a type or an
      alignment: the type line is looked for in the flattened block,
      which never holds one. */
  lemma ParsedTypeLineAsWritten(s: string, hs: seq<HeadingMatch>, k: nat, sourceFile: string, sourceId: string,
                                read: string -> BlockFields)
    requires Spaced(s, hs) && k < |hs| && MonsterHeadingAt(s, hs[k].index) == Some(hs[k])
    ensures var m := MonsterAt(s, hs, k, sourceFile, sourceId, read);
      m.size.None? && m.creatureType.None? && m.alignment.None?
  {
    var block := BlockOf(s, hs, k);
    BlockStartsWithHeading(s, hs, k);
    StripHtmlKeepsFirst(block);
    TypeLineNeverFound(StripHtml(block));
  }

  /** Corrected: the monster of the `k`-th heading with its size, type and
      alignment read from the first line of the block that starts with a
      size word. */
  function CorrectedMonsterAt(s: string, hs: seq<HeadingMatch>, k: nat, sourceFile: string, sourceId: string,
                              read: string -> BlockFields): Monster
    requires Spaced(s, hs) && k < |hs|
  {
    var kind := KindOf(TypeLineOfLines(BlockOf(s, hs, k)));
    MonsterAt(s, hs, k, sourceFile, sourceId, read).(size := kind.size, creatureType := kind.creatureType,
                                                       alignment := kind.alignment)
  }

  /** The corrected monster differs from the parsed one in its size, type
      and alignment only, and it has a size and a type exactly when some
      line of its block starts with a size word. */
  lemma CorrectedMonsterKind(s: string, hs: seq<HeadingMatch>, k: nat, sourceFile: string, sourceId: string,
                             read: string -> BlockFields)
    requires Spaced(s, hs) && k < |hs|
    ensures var m, w := CorrectedMonsterAt(s, hs, k, sourceFile, sourceId, read), MonsterAt(s, hs, k, sourceFile, sourceId, read);
      m.(size := w.size, creatureType := w.creatureType, alignment := w.alignment) == w
    ensures var m, lines := CorrectedMonsterAt(s, hs, k, sourceFile, sourceId, read), FlatLines(BlockOf(s, hs, k));
      (m.size.Some? && m.creatureType.Some?) <==> exists j :: 0 <= j < |lines| && SizeLine(lines[j])
  {
    TypeLineOfLinesFinds(BlockOf(s, hs, k));
  }

  /** As written, none of the monsters `parseMonstersFromMarkdown` returns
      has a size, a type or an alignment. */
  lemma ParsedKindsAsWritten(markdown: string, sourceFile: string, sourceId: string,
                             read: string -> BlockFields, k: nat)
    requires k < |MonsterHeadingsFrom(ReplaceCrLf(markdown), 0)|
    ensures var s := ReplaceCrLf(markdown); var hs := MonsterHeadingsFrom(s, 0);
      var m := Tabulate(|hs|, MonsterFn(s, hs, sourceFile, sourceId, read))[k];
      m.size.None? && m.creatureType.None? && m.alignment.None?
  {
    var s := ReplaceCrLf(markdown);
    var hs := MonsterHeadingsFrom(s, 0);
    ParsedMonsterAt(s, hs, sourceFile, sourceId, read, k);
    ParsedTypeLineAsWritten(s, hs, k, sourceFile, sourceId, read);
  }
}
