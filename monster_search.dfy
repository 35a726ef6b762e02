/** src/services/monsterSearch.ts: the monster browser's filter and sort.
    `filterAndSortMonsters` keeps the monsters that pass every active filter
    and sorts that fresh list with a comparator; the caller's list is left
    as it is. */
module MonsterSearch {
  import opened Wrappers
  import opened Text
  import opened Seqs
  import opened Sorting
  import opened Bestiary

  /** The sort keys the browser offers. */
  datatype SortBy = ByName | ByCr | BySource | ByType

  datatype Direction = Asc | Desc

  // ---------------------------------------------------------------------
  // Text search

  /** `text.toLowerCase().split(/\s+/).filter(Boolean)`, or no tokens for
      an empty text: the maximal runs of non-whitespace of the lower-cased
      text. */
  function QueryTokens(text: string): seq<string> {
    if text == [] then [] else Runs(Lower(text), NotSpace)
  }

  /** Every token is a non-empty piece of the lower-cased text without
      whitespace. */
  lemma QueryTokensAre(text: string, k: nat)
    requires k < |QueryTokens(text)|
    ensures var t := QueryTokens(text)[k];
      t != [] && (forall i :: 0 <= i < |t| ==> !IsSpace(t[i])) && Contains(Lower(text), t)
  {
    RunsOccur(Lower(text), NotSpace, k);
  }

  /** A text of whitespace only gives no tokens. */
  lemma {:induction false} QueryTokensOfBlank(text: string)
    requires forall i :: 0 <= i < |text| ==> IsSpace(text[i])
    ensures QueryTokens(text) == []
  {
    if text != [] {
      var low := Lower(text);
      RunsOfSpaces(low);
    }
  }

  lemma {:induction false} RunsOfSpaces(s: string)
    requires forall i :: 0 <= i < |s| ==> IsSpace(s[i])
    ensures Runs(s, NotSpace) == []
    decreases |s|
  {
    if s != [] {
      RunsOfSpaces(s[1..]);
    }
  }

  /** A text without whitespace is one token, lower-cased. */
  lemma QueryTokensOfWord(text: string)
    requires text != [] && forall i :: 0 <= i < |text| ==> !IsSpace(text[i])
    ensures QueryTokens(text) == [Lower(text)]
  {
    var low := Lower(text);
    forall i | 0 <= i < |low| ensures NotSpace(low[i]) {
      LowerKeepsSpace(text[i]);
    }
    RunLengthAll(low, NotSpace);
    assert NotSpace(low[0]);
    assert Runs(low[|low|..], NotSpace) == [];
    assert low[..|low|] == low;
  }

  lemma LowerKeepsSpace(c: char)
    ensures IsSpace(LowerChar(c)) <==> IsSpace(c)
  {
  }

  lemma {:induction false} RunLengthAll(s: string, w: char -> bool)
    requires forall i :: 0 <= i < |s| ==> w(s[i])
    ensures RunLength(s, w) == |s|
    decreases |s|
  {
    if s != [] {
      RunLengthAll(s[1..], w);
    }
  }

  /** The lower-cased text a query searches: name, type and habitat text. */
  function Haystack(m: Monster): string {
    Lower(m.name + " " + m.creatureType.GetOr("") + " " + m.fluffRaw.GetOr(""))
  }

  /** `matchesText`: every token occurs in the haystack. */
  predicate MatchesText(m: Monster, tokens: seq<string>) {
    forall k :: 0 <= k < |tokens| ==> Contains(Haystack(m), tokens[k])
  }

  /** Searching for a monster's name finds the monster. */
  lemma NameMatches(m: Monster)
    ensures MatchesText(m, QueryTokens(m.name))
  {
    var rest := " " + m.creatureType.GetOr("") + " " + m.fluffRaw.GetOr("");
    assert m.name + " " + m.creatureType.GetOr("") + " " + m.fluffRaw.GetOr("") == m.name + rest;
    LowerAppend(m.name, rest);
    forall k | 0 <= k < |QueryTokens(m.name)| ensures Contains(Haystack(m), QueryTokens(m.name)[k]) {
      QueryTokensAre(m.name, k);
      ContainsAppend(Lower(m.name), Lower(rest), QueryTokens(m.name)[k]);
    }
  }

  // ---------------------------------------------------------------------
  // Filters

  /** No source is selected, or the monster's source is one of them. */
  predicate SourceOk(f: MonsterFilters, m: Monster) {
    |f.sources| == 0 || m.sourceId in f.sources
  }

  /** No type is selected, or the monster has a non-empty type that holds
      one of the selected types, ignoring case. */
  predicate TypeOk(f: MonsterFilters, m: Monster) {
    || |f.types| == 0
    || (&& m.creatureType.Some? && m.creatureType.value != []
        && exists j :: 0 <= j < |f.types| && Contains(Lower(m.creatureType.value), Lower(f.types[j])))
  }

  /** No size is selected, or the monster has a non-empty size among them. */
  predicate SizeOk(f: MonsterFilters, m: Monster) {
    |f.sizes| == 0 || (m.size.Some? && m.size.value != [] && m.size.value in f.sizes)
  }

  /** `(challengeRatingValue ?? -Infinity) < minCR` rejects. */
  predicate MinCrOk(f: MonsterFilters, m: Monster) {
    f.minCR.None? || (m.challengeRatingValue.Some? && !(m.challengeRatingValue.value < f.minCR.value))
  }

  /** `(challengeRatingValue ?? Infinity) > maxCR` rejects. */
  predicate MaxCrOk(f: MonsterFilters, m: Monster) {
    f.maxCR.None? || (m.challengeRatingValue.Some? && !(m.challengeRatingValue.value > f.maxCR.value))
  }

  /** The callback of `monsters.filter`. */
  predicate Keep(f: MonsterFilters, tokens: seq<string>, m: Monster) {
    && SourceOk(f, m) && TypeOk(f, m) && SizeOk(f, m) && MinCrOk(f, m) && MaxCrOk(f, m)
    && (|tokens| == 0 || MatchesText(m, tokens))
  }

  function KeepFn(f: MonsterFilters): Monster -> bool {
    m => Keep(f, QueryTokens(f.text), m)
  }

  /** A monster without a challenge rating is dropped once either CR bound
      is set. */
  lemma MissingCrExcluded(f: MonsterFilters, m: Monster)
    requires f.minCR.Some? || f.maxCR.Some?
    requires m.challengeRatingValue.None?
    ensures !KeepFn(f)(m)
  {
  }

  /** A monster without a (non-empty) type or size is dropped once a type
      or a size is selected. */
  lemma MissingKindExcluded(f: MonsterFilters, m: Monster)
    requires || (|f.types| > 0 && (m.creatureType.None? || m.creatureType.value == []))
             || (|f.sizes| > 0 && (m.size.None? || m.size.value == []))
    ensures !KeepFn(f)(m)
  {
  }

  /** A selected type that differs from the monster's only in case selects
      it, and so does any selected part of it. */
  lemma TypeMatchesIgnoringCase(f: MonsterFilters, m: Monster, j: nat, before: string, after: string)
    requires m.creatureType.Some? && m.creatureType.value != []
    requires j < |f.types| && Lower(m.creatureType.value) == before + Lower(f.types[j]) + after
    ensures TypeOk(f, m)
  {
    var low := Lower(m.creatureType.value);
    var pat := Lower(f.types[j]);
    assert low[|before|..|before| + |pat|] == pat;
    assert OccursAt(low, pat, |before|);
  }

  /** A value passes both CR bounds exactly when it lies between them. */
  lemma CrBoundsAre(f: MonsterFilters, m: Monster, v: real)
    requires m.challengeRatingValue == Some(v)
    ensures MinCrOk(f, m) && MaxCrOk(f, m) <==>
      (f.minCR.None? || f.minCR.value <= v) && (f.maxCR.None? || v <= f.maxCR.value)
  {
  }

  /** Filters that select nothing. */
  predicate NoFilters(f: MonsterFilters) {
    |f.sources| == 0 && |f.types| == 0 && |f.sizes| == 0 && f.minCR.None? && f.maxCR.None?
    && forall i :: 0 <= i < |f.text| ==> IsSpace(f.text[i])
  }

  // ---------------------------------------------------------------------
  // Sort

  /** `av - bv` with an undefined value as `-Infinity`, as a sign; equal
      values compare as 0. */
  function CrCmp(a: Option<real>, b: Option<real>): (c: int)
    ensures c == 0 <==> a == b
    ensures -1 <= c <= 1
  {
    if a == b then 0
    else if a.None? then -1
    else if b.None? then 1
    else if a.value < b.value then -1
    else 1
  }

  lemma CrCmpConsistent()
    ensures Consistent(CrCmp)
  {
    forall a, b, c | CrCmp(a, b) <= 0 && CrCmp(b, c) <= 0 ensures CrCmp(a, c) <= 0 {
      if a != b && b != c && a.Some? {
        assert b.Some? && a.value < b.value;
      }
    }
  }

  function NameOf(m: Monster): string {
    m.name
  }

  function SourceOf(m: Monster): string {
    m.sourceId
  }

  /** `a.type || ''`. */
  function TypeOf(m: Monster): string {
    m.creatureType.GetOr("")
  }

  function CrOf(m: Monster): Option<real> {
    m.challengeRatingValue
  }

  /** The comparator in ascending order: by name; or by source, type or CR,
      ties broken by name. */
  function Comparator(sortBy: SortBy): (Monster, Monster) -> int {
    var byName := On(StrCmp, NameOf);
    match sortBy
    case ByName => byName
    case BySource => Then(On(StrCmp, SourceOf), byName)
    case ByType => Then(On(StrCmp, TypeOf), byName)
    case ByCr => Then(On(CrCmp, CrOf), byName)
  }

  /** `sortDirection === 'asc' ? 1 : -1`. */
  function Sign(d: Direction): int {
    if d == Asc then 1 else -1
  }

  /** The comparator `sorted` uses: the ascending one times the direction. */
  function Directed(sortBy: SortBy, d: Direction): (Monster, Monster) -> int {
    Scaled(Sign(d), Comparator(sortBy))
  }

  /** `a` sorts strictly before `b`. */
  function Before(sortBy: SortBy, d: Direction): (Monster, Monster) -> bool {
    LessBy(Directed(sortBy, d))
  }

  /** `filterAndSortMonsters`. */
  function FilterAndSortMonsters(monsters: seq<Monster>, f: MonsterFilters, sortBy: SortBy, d: Direction)
    : seq<Monster>
  {
    SortWith(Filter(monsters, KeepFn(f)), Before(sortBy, d))
  }

  /** Each comparator the browser can pick is consistent. */
  lemma ComparatorConsistent(sortBy: SortBy)
    ensures Consistent(Comparator(sortBy))
  {
    StrCmpConsistent();
    OnConsistent(StrCmp, NameOf);
    match sortBy
    case ByName =>
    case BySource => KeyThenNameConsistent(StrCmp, SourceOf);
    case ByType => KeyThenNameConsistent(StrCmp, TypeOf);
    case ByCr =>
      CrCmpConsistent();
      KeyThenNameConsistent(CrCmp, CrOf);
  }

  lemma KeyThenNameConsistent<K(!new)>(cmp: (K, K) -> int, key: Monster -> K)
    requires Consistent(cmp)
    ensures Consistent(Then(On(cmp, key), On(StrCmp, NameOf)))
  {
    StrCmpConsistent();
    OnConsistent(StrCmp, NameOf);
    OnConsistent(cmp, key);
    ThenConsistent(On(cmp, key), On(StrCmp, NameOf));
  }

  lemma BeforeOrder(sortBy: SortBy, d: Direction)
    ensures StrictWeakOrder(Before(sortBy, d))
  {
    ComparatorConsistent(sortBy);
    ScaledConsistent(Sign(d), Comparator(sortBy));
    ConsistentOrder(Directed(sortBy, d));
  }

  /** The result holds exactly the monsters that pass the filters, each as
      often as in the input. */
  lemma FilterAndSortContents(monsters: seq<Monster>, f: MonsterFilters, sortBy: SortBy, d: Direction, m: Monster)
    ensures multiset(FilterAndSortMonsters(monsters, f, sortBy, d))[m]
      == if Keep(f, QueryTokens(f.text), m) then multiset(monsters)[m] else 0
  {
    FilterMultiset(monsters, KeepFn(f), m);
  }

  /** With no filter selected the result is a reordering of the input. */
  lemma NoFiltersKeepsAll(monsters: seq<Monster>, f: MonsterFilters, sortBy: SortBy, d: Direction)
    requires NoFilters(f)
    ensures multiset(FilterAndSortMonsters(monsters, f, sortBy, d)) == multiset(monsters)
  {
    QueryTokensOfBlank(f.text);
    forall i | 0 <= i < |monsters| ensures KeepFn(f)(monsters[i]) {
    }
    FilterAll(monsters, KeepFn(f));
  }

  /** No monster of the result sorts strictly before one to its left. */
  lemma FilterAndSortSorted(monsters: seq<Monster>, f: MonsterFilters, sortBy: SortBy, d: Direction)
    ensures SortedBy(FilterAndSortMonsters(monsters, f, sortBy, d), Before(sortBy, d))
  {
    BeforeOrder(sortBy, d);
    SortWithSorted(Filter(monsters, KeepFn(f)), Before(sortBy, d));
  }

  /** In the result, each monster is at most the next ones under the
      ascending comparator, and at least them in descending order. */
  lemma FilterAndSortOrdered(monsters: seq<Monster>, f: MonsterFilters, sortBy: SortBy, d: Direction,
                             i: nat, j: nat)
    requires var r := FilterAndSortMonsters(monsters, f, sortBy, d); i < j < |r|
    ensures var r := FilterAndSortMonsters(monsters, f, sortBy, d);
      if d == Asc then Comparator(sortBy)(r[i], r[j]) <= 0 else Comparator(sortBy)(r[i], r[j]) >= 0
  {
    var r := FilterAndSortMonsters(monsters, f, sortBy, d);
    FilterAndSortSorted(monsters, f, sortBy, d);
    assert !Before(sortBy, d)(r[j], r[i]);
    assert !(Sign(d) * Comparator(sortBy)(r[j], r[i]) < 0);
    ComparatorConsistent(sortBy);
    assert Comparator(sortBy)(r[j], r[i]) == -Comparator(sortBy)(r[i], r[j]);
  }

  /** Sorted by CR, monsters without a rating come first, and monsters of
      equal rating are in name order. */
  lemma SortedByCr(monsters: seq<Monster>, f: MonsterFilters, i: nat, j: nat)
    requires var r := FilterAndSortMonsters(monsters, f, ByCr, Asc); i < j < |r|
    ensures var r := FilterAndSortMonsters(monsters, f, ByCr, Asc);
      && (r[j].challengeRatingValue.None? ==> r[i].challengeRatingValue.None?)
      && (r[i].challengeRatingValue.Some? && r[j].challengeRatingValue.Some? ==>
            r[i].challengeRatingValue.value <= r[j].challengeRatingValue.value)
      && (r[i].challengeRatingValue == r[j].challengeRatingValue ==> StrCmp(r[i].name, r[j].name) <= 0)
  {
    var r := FilterAndSortMonsters(monsters, f, ByCr, Asc);
    FilterAndSortOrdered(monsters, f, ByCr, Asc, i, j);
    CrComparatorOrder(r[i], r[j]);
  }

  /** What the CR comparator says of two monsters it does not put out of
      order. */
  lemma CrComparatorOrder(a: Monster, b: Monster)
    requires Comparator(ByCr)(a, b) <= 0
    ensures b.challengeRatingValue.None? ==> a.challengeRatingValue.None?
    ensures a.challengeRatingValue.Some? && b.challengeRatingValue.Some? ==>
      a.challengeRatingValue.value <= b.challengeRatingValue.value
    ensures a.challengeRatingValue == b.challengeRatingValue ==> StrCmp(a.name, b.name) <= 0
  {
    var c := CrCmp(a.challengeRatingValue, b.challengeRatingValue);
    assert Comparator(ByCr) == Then(On(CrCmp, CrOf), On(StrCmp, NameOf));
    assert On(CrCmp, CrOf)(a, b) == c;
    assert On(StrCmp, NameOf)(a, b) == StrCmp(a.name, b.name);
  }

  /** `'desc'` reverses the whole comparison, the name tie-break included. */
  lemma DescReverses(sortBy: SortBy, a: Monster, b: Monster)
    ensures Before(sortBy, Desc)(a, b) <==> Before(sortBy, Asc)(b, a)
  {
    ComparatorConsistent(sortBy);
    assert Comparator(sortBy)(a, b) == -Comparator(sortBy)(b, a);
    assert Before(sortBy, Desc)(a, b) <==> -1 * Comparator(sortBy)(a, b) < 0;
    assert Before(sortBy, Asc)(b, a) <==> 1 * Comparator(sortBy)(b, a) < 0;
  }

  /** Sorting by name orders by JavaScript's string order of the names. */
  lemma ByNameOrder(a: Monster, b: Monster)
    ensures Before(ByName, Asc)(a, b) <==> StrLess(a.name, b.name)
  {
    assert Comparator(ByName) == On(StrCmp, NameOf);
    assert Comparator(ByName)(a, b) == StrCmp(a.name, b.name);
    assert Before(ByName, Asc)(a, b) <==> 1 * Comparator(ByName)(a, b) < 0;
  }

  /** Monsters that compare equal keep their input order. */
  lemma FilterAndSortStable(monsters: seq<Monster>, f: MonsterFilters, sortBy: SortBy, d: Direction, m: Monster)
    ensures var lt := Before(sortBy, d);
      Filter(FilterAndSortMonsters(monsters, f, sortBy, d), EquivTo(lt, m))
        == Filter(Filter(monsters, KeepFn(f)), EquivTo(lt, m))
  {
    BeforeOrder(sortBy, d);
    SortWithStable(Filter(monsters, KeepFn(f)), Before(sortBy, d), m);
  }
}
