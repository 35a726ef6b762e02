/** The JavaScript string operations the application relies on (`\s`, `trim`,
    `toLowerCase`, `includes`, `indexOf`, `lastIndexOf`, `split`, `slice`,
    `join`, number-to-string, default string ordering), written out over
    seq<char>. */
module Text {
  import opened Wrappers

  /** JavaScript `\s`: WhiteSpace and LineTerminator. `String.prototype.trim`
      removes exactly these characters too. */
  predicate IsSpace(c: char) {
    c == '\t' || c == '\n' || c == '\U{000B}' || c == '\U{000C}' || c == '\r' || c == ' '
    || c == '\U{00A0}' || c == '\U{1680}' || ('\U{2000}' <= c <= '\U{200A}')
    || c == '\U{2028}' || c == '\U{2029}' || c == '\U{202F}' || c == '\U{205F}'
    || c == '\U{3000}' || c == '\U{FEFF}'
  }

  /** The characters that `.` does not match and that `^`/`$` see as line ends
      in multiline mode. */
  predicate IsLineTerminator(c: char) {
    c == '\n' || c == '\r' || c == '\U{2028}' || c == '\U{2029}'
  }

  function NotLineTerminator(c: char): bool {
    !IsLineTerminator(c)
  }

  function NotSpace(c: char): bool {
    !IsSpace(c)
  }

  predicate IsDigit(c: char) {
    '0' <= c <= '9'
  }

  predicate IsAsciiUpper(c: char) {
    'A' <= c <= 'Z'
  }

  predicate IsAsciiLetter(c: char) {
    'A' <= c <= 'Z' || 'a' <= c <= 'z'
  }

  /** `toLowerCase` of one character, for ASCII and Latin-1 capitals. */
  function LowerChar(c: char): char {
    if 'A' <= c <= 'Z' || ('\U{00C0}' <= c <= '\U{00DE}' && c != '\U{00D7}')
    then (c as int + 32) as char
    else c
  }

  /** `String.prototype.toLowerCase`, character by character. */
  function Lower(s: string): (r: string)
    ensures |r| == |s|
    ensures forall i :: 0 <= i < |s| ==> r[i] == LowerChar(s[i])
  {
    seq(|s|, i requires 0 <= i < |s| => LowerChar(s[i]))
  }

  lemma LowerAppend(a: string, b: string)
    ensures Lower(a + b) == Lower(a) + Lower(b)
  {
  }

  /** How a regular expression with the `i` flag (and without `u`) compares
      characters: only the ASCII letters fold. */
  function AsciiFold(c: char): char {
    if 'A' <= c <= 'Z' then (c as int + 32) as char else c
  }

  /** `s` starts with `pat`, compared as a regular expression with the `i` flag. */
  predicate StartsWithFolded(s: string, pat: string) {
    |pat| <= |s| && forall i :: 0 <= i < |pat| ==> AsciiFold(s[i]) == AsciiFold(pat[i])
  }

  /** `pat` occurs in `s` at index `k`. */
  predicate OccursAt(s: string, pat: string, k: int) {
    0 <= k && k + |pat| <= |s| && s[k..k + |pat|] == pat
  }

  lemma OccursShift(s: string, pat: string)
    requires s != []
    ensures forall k :: 1 <= k ==> (OccursAt(s, pat, k) <==> OccursAt(s[1..], pat, k - 1))
  {
    forall k | 1 <= k
      ensures OccursAt(s, pat, k) <==> OccursAt(s[1..], pat, k - 1)
    {
      if k + |pat| <= |s| {
        assert s[1..][k - 1..k - 1 + |pat|] == s[k..k + |pat|];
      }
    }
  }

  /** `pat` occurs in `s` at index `k` when letters are compared as a
      regular expression with the `i` flag compares them. */
  predicate FoldedAt(s: string, pat: string, k: nat) {
    k + |pat| <= |s| && forall i :: 0 <= i < |pat| ==> AsciiFold(s[k + i]) == AsciiFold(pat[i])
  }

  /** The first index from `k` on at which `pat` occurs case-insensitively. */
  function FindFolded(s: string, pat: string, k: nat): (r: Option<nat>)
    ensures r.Some? ==> k <= r.value && FoldedAt(s, pat, r.value)
    ensures r.Some? ==> forall j :: k <= j < r.value ==> !FoldedAt(s, pat, j)
    ensures r.None? ==> forall j :: k <= j ==> !FoldedAt(s, pat, j)
    decreases |s| - k
  {
    if k + |pat| > |s| then None
    else if FoldedAt(s, pat, k) then Some(k)
    else FindFolded(s, pat, k + 1)
  }

  /** `/pat/i.test(s)` for a pattern without special characters. */
  function ContainsFolded(s: string, pat: string): (b: bool)
    ensures b <==> exists k :: FoldedAt(s, pat, k)
  {
    FindFolded(s, pat, 0).Some?
  }

  /** `s.indexOf(pat)`: the first index at which `pat` occurs, or -1. */
  function IndexOf(s: string, pat: string): (r: int)
    ensures -1 <= r <= |s|
    ensures r >= 0 ==> OccursAt(s, pat, r)
    ensures r >= 0 ==> forall k :: 0 <= k < r ==> !OccursAt(s, pat, k)
    ensures r < 0 ==> forall k :: !OccursAt(s, pat, k)
    decreases |s|
  {
    if |s| < |pat| then -1
    else if s[..|pat|] == pat then 0
    else
      var r := IndexOf(s[1..], pat);
      OccursShift(s, pat);
      if r < 0 then -1 else r + 1
  }

  /** `s.includes(pat)`. */
  function Contains(s: string, pat: string): (b: bool)
    ensures b <==> exists k :: OccursAt(s, pat, k)
  {
    IndexOf(s, pat) >= 0
  }

  lemma ContainsAppend(a: string, b: string, pat: string)
    requires Contains(a, pat)
    ensures Contains(a + b, pat)
  {
    var k :| OccursAt(a, pat, k);
    assert (a + b)[k..k + |pat|] == a[k..k + |pat|];
    assert OccursAt(a + b, pat, k);
  }

  /** The last index below `j` at which `pat` occurs in `s`, or -1. */
  function LastIndexBelow(s: string, pat: string, j: int): (r: int)
    ensures r == -1 || (0 <= r < j && OccursAt(s, pat, r))
    ensures forall k :: r < k < j ==> !OccursAt(s, pat, k)
    decreases j
  {
    if j <= 0 then -1
    else if OccursAt(s, pat, j - 1) then j - 1
    else LastIndexBelow(s, pat, j - 1)
  }

  /** `s.lastIndexOf(pat)`: the last index at which `pat` occurs, or -1. */
  function LastIndexOf(s: string, pat: string): (r: int)
    ensures r == -1 || 0 <= r <= |s| - |pat|
    ensures r >= 0 ==> OccursAt(s, pat, r)
    ensures forall k :: r < k ==> !OccursAt(s, pat, k)
  {
    LastIndexBelow(s, pat, |s| - |pat| + 1)
  }

  /** `s.split(pat).length - 1` for a non-empty `pat`: the number of
      occurrences found scanning left to right, each search resuming after
      the previous occurrence. */
  function CountOccurrences(s: string, pat: string): nat
    requires pat != []
    decreases |s|
  {
    if |s| < |pat| then 0
    else if s[..|pat|] == pat then 1 + CountOccurrences(s[|pat|..], pat)
    else CountOccurrences(s[1..], pat)
  }

  /** Appending text never lowers the number of occurrences found. */
  lemma {:induction false} CountOccurrencesAppend(a: string, b: string, pat: string)
    requires pat != []
    ensures CountOccurrences(a + b, pat) >= CountOccurrences(a, pat)
    decreases |a|
  {
    if |a| < |pat| {
    } else if a[..|pat|] == pat {
      assert (a + b)[..|pat|] == pat;
      assert (a + b)[|pat|..] == a[|pat|..] + b;
      CountOccurrencesAppend(a[|pat|..], b, pat);
    } else {
      assert (a + b)[..|pat|] == a[..|pat|];
      assert (a + b)[1..] == a[1..] + b;
      CountOccurrencesAppend(a[1..], b, pat);
    }
  }

  /** An occurrence at the very start is always counted. */
  lemma CountOccurrencesPositive(s: string, pat: string)
    requires pat != [] && OccursAt(s, pat, 0)
    ensures CountOccurrences(s, pat) >= 1
  {
    assert s[..|pat|] == s[0..|pat|];
  }

  /** Where the whitespace that `trimStart` removes ends. */
  function TrimStart(s: string): (a: nat)
    ensures a <= |s|
  {
    RunEnd(s, 0, IsSpace)
  }

  /** Scanning back from `j` towards `lo`: where the whitespace before `j`
      starts. */
  function TrimEnd(s: string, lo: nat, j: nat): (e: nat)
    requires lo <= j <= |s|
    ensures lo <= e <= j
    ensures forall i :: e <= i < j ==> IsSpace(s[i])
    ensures lo < e ==> !IsSpace(s[e - 1])
    decreases j
  {
    if lo < j && IsSpace(s[j - 1]) then TrimEnd(s, lo, j - 1) else j
  }

  /** No leading or trailing whitespace. */
  predicate Trimmed(s: string) {
    s == [] || (!IsSpace(s[0]) && !IsSpace(s[|s| - 1]))
  }

  /** `String.prototype.trim`: the slice of `s` between its leading and its
      trailing whitespace. */
  function Trim(s: string): (r: string)
    ensures Trimmed(r) && |r| <= |s|
  {
    s[TrimStart(s)..TrimEnd(s, TrimStart(s), |s|)]
  }

  /** `trim` cuts off only whitespace, and all of it. */
  lemma TrimSlice(s: string)
    ensures var a := TrimStart(s);
      && a + |Trim(s)| <= |s|
      && Trim(s) == s[a..a + |Trim(s)|]
      && (forall i :: 0 <= i < a ==> IsSpace(s[i]))
      && (forall i :: a + |Trim(s)| <= i < |s| ==> IsSpace(s[i]))
  {
  }

  lemma TrimOfTrimmed(s: string)
    requires Trimmed(s)
    ensures Trim(s) == s
  {
    if s != [] {
      assert TrimStart(s) == 0;
      assert TrimEnd(s, 0, |s|) == |s|;
    }
  }

  /** A string made only of whitespace trims to the empty string. */
  lemma TrimAllSpaces(s: string)
    requires forall i :: 0 <= i < |s| ==> IsSpace(s[i])
    ensures Trim(s) == []
  {
  }

  function Min(a: int, b: int): int {
    if a <= b then a else b
  }

  function Max(a: int, b: int): int {
    if a >= b then a else b
  }

  /** Where `slice(0, end)` stops in a sequence of length `len`: a negative
      `end` counts from the back. */
  function SliceEnd(len: nat, end: int): (k: nat)
    ensures k <= len
    ensures 0 <= end ==> k == Min(end, len)
    ensures end < 0 ==> k == Max(len + end, 0)
  {
    if end < 0 then (if len + end < 0 then 0 else len + end)
    else if end < len then end else len
  }

  /** `s.slice(0, end)` for strings and arrays. */
  function SliceTo<T>(s: seq<T>, end: int): (r: seq<T>)
    ensures |r| == SliceEnd(|s|, end)
    ensures r == s[..|r|]
  {
    s[..SliceEnd(|s|, end)]
  }

  lemma SliceOfSlice<T>(s: seq<T>, a: nat, b: nat, lo: nat, hi: nat)
    requires a <= b <= |s| && lo <= hi <= b - a
    ensures s[a..b][lo..hi] == s[a + lo..a + hi]
  {
    forall i | 0 <= i < hi - lo
      ensures s[a..b][lo..hi][i] == s[a + lo + i]
    {
      assert s[a..b][lo..hi][i] == s[a..b][lo + i];
    }
  }

  /** One decimal digit as a character. */
  function DigitChar(d: nat): (c: char)
    requires d < 10
    ensures IsDigit(c)
  {
    ('0' as int + d) as char
  }

  /** The value of a decimal digit character. */
  function DigitValue(c: char): nat
    requires IsDigit(c)
  {
    c as int - '0' as int
  }

  /** `String(n)` for a non-negative integer: its decimal digits. */
  function NatToString(n: nat): (r: string)
    ensures r != []
    ensures forall i :: 0 <= i < |r| ==> IsDigit(r[i])
    decreases n
  {
    if n < 10 then [DigitChar(n)] else NatToString(n / 10) + [DigitChar(n % 10)]
  }

  /** `Number(ds)` for a string of decimal digits. */
  function DigitsToNat(ds: string): nat
    requires forall i :: 0 <= i < |ds| ==> IsDigit(ds[i])
    decreases |ds|
  {
    if ds == [] then 0 else 10 * DigitsToNat(ds[..|ds| - 1]) + DigitValue(ds[|ds| - 1])
  }

  /** Reading back the decimal digits of `n` gives `n`. */
  lemma {:induction false} NatToStringRoundTrip(n: nat)
    ensures DigitsToNat(NatToString(n)) == n
    decreases n
  {
    var r := NatToString(n);
    if n >= 10 {
      NatToStringRoundTrip(n / 10);
      assert r[..|r| - 1] == NatToString(n / 10);
    }
  }

  /** Different numbers have different decimal representations. */
  lemma NatToStringInjective(m: nat, n: nat)
    requires NatToString(m) == NatToString(n)
    ensures m == n
  {
    NatToStringRoundTrip(m);
    NatToStringRoundTrip(n);
  }

  /** `parts.join(sep)`. */
  function Join(parts: seq<string>, sep: string): string
    decreases |parts|
  {
    if parts == [] then []
    else if |parts| == 1 then parts[0]
    else parts[0] + sep + Join(parts[1..], sep)
  }

  function Other(c: char): char -> bool {
    x => x != c
  }

  /** `s.split(c)` for a one-character separator: the pieces between the
      occurrences of `c`, empty ones included. */
  function Split(s: string, c: char): (r: seq<string>)
    ensures |r| >= 1
    ensures forall k, i :: 0 <= k < |r| && 0 <= i < |r[k]| ==> r[k][i] != c
    decreases |s|
  {
    var k := RunEnd(s, 0, Other(c));
    if k == |s| then [s] else [s[..k]] + Split(s[k + 1..], c)
  }

  /** Joining the pieces with the separator gives back the string. */
  lemma {:induction false} JoinSplit(s: string, c: char)
    ensures Join(Split(s, c), [c]) == s
    decreases |s|
  {
    var k := RunEnd(s, 0, Other(c));
    if k < |s| {
      var r := Split(s[k + 1..], c);
      JoinSplit(s[k + 1..], c);
      assert ([s[..k]] + r)[1..] == r;
      assert s == s[..k] + [c] + s[k + 1..];
    }
  }

  /** Splitting pieces that do not contain the separator, once joined,
      gives back the pieces. */
  lemma {:induction false} SplitJoin(parts: seq<string>, c: char)
    requires |parts| >= 1
    requires forall k, i :: 0 <= k < |parts| && 0 <= i < |parts[k]| ==> parts[k][i] != c
    ensures Split(Join(parts, [c]), c) == parts
    decreases |parts|
  {
    var s := Join(parts, [c]);
    if |parts| == 1 {
      assert RunEnd(s, 0, Other(c)) == |s|;
    } else {
      var rest := Join(parts[1..], [c]);
      assert s == parts[0] + [c] + rest;
      assert forall i :: 0 <= i < |parts[0]| ==> s[i] == parts[0][i];
      assert s[|parts[0]|] == c;
      assert RunEnd(s, 0, Other(c)) == |parts[0]| by {
        RunEndStops(s, 0, Other(c), |parts[0]|);
      }
      assert s[..|parts[0]|] == parts[0];
      assert s[|parts[0]| + 1..] == rest;
      assert Split(s, c) == [parts[0]] + Split(rest, c);
      SplitJoin(parts[1..], c);
      HeadTail(parts);
    }
  }

  lemma HeadTail<T>(s: seq<T>)
    requires |s| >= 1
    ensures [s[0]] + s[1..] == s
  {
  }

  /** Length of the run of characters satisfying `w` at the start of `s`. */
  function RunLength(s: string, w: char -> bool): (n: nat)
    ensures n <= |s|
    ensures forall i :: 0 <= i < n ==> w(s[i])
    ensures n < |s| ==> !w(s[n])
    decreases |s|
  {
    if s != [] && w(s[0]) then 1 + RunLength(s[1..], w) else 0
  }

  /** Where the run of characters satisfying `w` that starts at index `p`
      of `s` ends. */
  function RunEnd(s: string, p: nat, w: char -> bool): (e: nat)
    requires p <= |s|
    ensures p <= e <= |s|
    ensures forall i :: p <= i < e ==> w(s[i])
    ensures e < |s| ==> !w(s[e])
    decreases |s| - p
  {
    if p < |s| && w(s[p]) then RunEnd(s, p + 1, w) else p
  }

  lemma {:induction false} RunEndStops(s: string, p: nat, w: char -> bool, e: nat)
    requires p <= e < |s| && !w(s[e])
    requires forall i :: p <= i < e ==> w(s[i])
    ensures RunEnd(s, p, w) == e
    decreases e - p
  {
    if p < e {
      RunEndStops(s, p + 1, w, e);
    }
  }

  /** The maximal runs of characters satisfying `w`, in order: what
      `s.split(/[^w]+/)` yields once the empty pieces are filtered out. */
  function Runs(s: string, w: char -> bool): (r: seq<string>)
    ensures forall k :: 0 <= k < |r| ==> r[k] != []
    ensures forall k, i :: 0 <= k < |r| && 0 <= i < |r[k]| ==> w(r[k][i])
    decreases |s|
  {
    if s == [] then []
    else if !w(s[0]) then Runs(s[1..], w)
    else
      var n := RunLength(s, w);
      [s[..n]] + Runs(s[n..], w)
  }

  /** Every run is a piece of the string. */
  lemma {:induction false} RunsOccur(s: string, w: char -> bool, k: nat)
    requires k < |Runs(s, w)|
    ensures Contains(s, Runs(s, w)[k])
    decreases |s|
  {
    var r := Runs(s, w);
    if !w(s[0]) {
      assert r == Runs(s[1..], w);
      RunsOccur(s[1..], w, k);
      ContainsInSuffix(s, 1, r[k]);
    } else {
      var n := RunLength(s, w);
      assert r == [s[..n]] + Runs(s[n..], w);
      if k == 0 {
        assert OccursAt(s, r[0], 0);
      } else {
        assert r[k] == Runs(s[n..], w)[k - 1];
        RunsOccur(s[n..], w, k - 1);
        ContainsInSuffix(s, n, r[k]);
      }
    }
  }

  lemma ContainsInSuffix(s: string, n: nat, pat: string)
    requires n <= |s| && Contains(s[n..], pat)
    ensures Contains(s, pat)
  {
    var j :| OccursAt(s[n..], pat, j);
    assert s[n..][j..j + |pat|] == s[n + j..n + j + |pat|];
    assert OccursAt(s, pat, n + j);
  }

  /** JavaScript's default string comparison (`sort()` without a comparator,
      and the model of `localeCompare`): lexicographic by character code;
      -1, 0 or 1. */
  function StrCmp(a: string, b: string): (c: int)
    ensures -1 <= c <= 1
    decreases |a|
  {
    if a == [] && b == [] then 0
    else if a == [] then -1
    else if b == [] then 1
    else if a[0] < b[0] then -1
    else if a[0] > b[0] then 1
    else StrCmp(a[1..], b[1..])
  }

  lemma {:induction false} StrCmpZero(a: string, b: string)
    ensures StrCmp(a, b) == 0 <==> a == b
    decreases |a|
  {
    if a != [] && b != [] && a[0] == b[0] {
      StrCmpZero(a[1..], b[1..]);
      if a[1..] == b[1..] {
        assert a == [a[0]] + a[1..];
        assert b == [b[0]] + b[1..];
      }
    }
  }

  lemma {:induction false} StrCmpAntisymmetric(a: string, b: string)
    ensures StrCmp(a, b) == -StrCmp(b, a)
    decreases |a|
  {
    if a != [] && b != [] && a[0] == b[0] {
      StrCmpAntisymmetric(a[1..], b[1..]);
    }
  }

  lemma {:induction false} StrCmpTransitive(a: string, b: string, c: string)
    requires StrCmp(a, b) < 0 && StrCmp(b, c) < 0
    ensures StrCmp(a, c) < 0
    decreases |a|
  {
    if a != [] && b != [] && c != [] && a[0] == b[0] && b[0] == c[0] {
      StrCmpTransitive(a[1..], b[1..], c[1..]);
    }
  }

  /** `a` sorts strictly before `b` in JavaScript's default string order. */
  predicate StrLess(a: string, b: string) {
    StrCmp(a, b) < 0
  }
}
