/** src/components/MonsterManager.tsx: the pure parts of the monster manager
    panel, namely the challenge-rating label, the encounter totals, the
    name search and the two submit guards. */
module MonsterManager {
  import opened Wrappers
  import opened Text
  import opened Types
  import opened Seqs
  import MonsterParser
  import Monsters

  // ---------------------------------------------------------------------
  // formatCr

  predicate IsWhole(x: real) {
    x.Floor as real == x
  }

  /** `Number.prototype.toString` writes a whole number below 10^21 in
      plain decimal digits. */
  const PlainLimit: int := 1_000_000_000_000_000_000_000

  /** `formatCr`: the empty string for no rating, the three fractions as
      written in statblocks, a whole number in decimal and any other number
      as `show` (the rest of `Number.prototype.toString`) writes it. */
  function FormatCr(cr: Option<real>, show: real -> string): (s: string)
    ensures cr.None? ==> s == ""
    ensures cr.Some? && cr.value in {0.125, 0.25, 0.5} ==>
      s in MonsterParser.CrMap && MonsterParser.CrMap[s] == cr.value
    ensures cr.Some? && IsWhole(cr.value) && 0.0 <= cr.value < PlainLimit as real ==>
      s == NatToString(cr.value.Floor)
  {
    if cr.None? then ""
    else if cr.value == 0.125 then "1/8"
    else if cr.value == 0.25 then "1/4"
    else if cr.value == 0.5 then "1/2"
    else if IsWhole(cr.value) && -PlainLimit as real < cr.value < PlainLimit as real then
      var n := cr.value.Floor;
      if n < 0 then "-" + NatToString(-n) else NatToString(n)
    else show(cr.value)
  }

  /** The label of a rating of 0, 1/8, 1/4 or 1/2 is read back by `parseCR`
      as the same rating. */
  lemma FormatCrRoundTrip(c: real, show: real -> string)
    requires c in {0.0, 0.125, 0.25, 0.5}
    ensures MonsterParser.ParseCr(Some(FormatCr(Some(c), show))).value == Some(c)
  {
    var s := FormatCr(Some(c), show);
    if c == 0.0 {
      assert s == NatToString(0) == "0";
    }
    assert s in MonsterParser.CrMap;
    TrimOfTrimmed(s);
  }

  /** So is the label of any whole rating. */
  lemma FormatCrWholeRoundTrip(n: nat, show: real -> string)
    requires n < PlainLimit
    ensures MonsterParser.ParseCr(Some(FormatCr(Some(n as real), show))).value == Some(n as real)
  {
    MonsterParser.ParseCrOfNat(n);
  }

  // ---------------------------------------------------------------------
  // encounterSummary

  /** `monsters.find(m => m.id === id)`: the first monster with that id. */
  function FindMonster(monsters: seq<Monster>, id: string): (r: Option<Monster>)
    ensures r.None? <==> forall i :: 0 <= i < |monsters| ==> monsters[i].id != id
    ensures r.Some? ==> exists k ::
      && 0 <= k < |monsters| && r.value == monsters[k] && r.value.id == id
      && forall j :: 0 <= j < k ==> monsters[j].id != id
  {
    var k := FirstWhere(monsters, Monsters.MonsterHasId(id));
    if k == -1 then None else Some(monsters[k])
  }

  datatype Totals = Totals(totalHp: int, totalCr: real, count: int)

  const NoTotals := Totals(0, 0.0, 0)

  /** `e.quantity || 1`. */
  function Quantity(e: EncounterEntry): int {
    if e.quantity == 0 then 1 else e.quantity
  }

  /** What one entry of the `forEach` adds: nothing when its monster is
      gone, otherwise the monster's hit points and rating (0 when missing)
      times the quantity. */
  function EntryTotals(e: EncounterEntry, monsters: seq<Monster>): Totals {
    match FindMonster(monsters, e.monsterId)
    case None => NoTotals
    case Some(m) =>
      var qty := Quantity(e);
      Totals(m.hp.GetOr(0) * qty, m.cr.GetOr(0.0) * qty as real, qty)
  }

  function EntryFn(monsters: seq<Monster>): EncounterEntry -> Totals {
    (e: EncounterEntry) => EntryTotals(e, monsters)
  }

  function Plus(a: Totals, b: Totals): Totals {
    Totals(a.totalHp + b.totalHp, a.totalCr + b.totalCr, a.count + b.count)
  }

  /** The sum of `f` over the entries, added up from the first. */
  function Accumulate(encounter: seq<EncounterEntry>, f: EncounterEntry -> Totals): Totals
    decreases |encounter|
  {
    if encounter == [] then NoTotals
    else Plus(Accumulate(encounter[..|encounter| - 1], f), f(encounter[|encounter| - 1]))
  }

  /** The totals of the encounter. */
  function Summary(encounter: seq<EncounterEntry>, monsters: seq<Monster>): Totals {
    Accumulate(encounter, EntryFn(monsters))
  }

  /** The totals of one entry: nothing for an entry whose monster is gone,
      and otherwise its monster's hit points and rating (0 when missing)
      times its quantity (1 when 0). */
  lemma SummaryOfOne(e: EncounterEntry, monsters: seq<Monster>)
    ensures var t := Summary([e], monsters);
      match FindMonster(monsters, e.monsterId)
      case None => t == NoTotals
      case Some(m) => t == Totals(m.hp.GetOr(0) * Quantity(e), m.cr.GetOr(0.0) * Quantity(e) as real, Quantity(e))
  {
    var f, t := EntryFn(monsters), EntryTotals(e, monsters);
    assert [e][..0] == [];
    assert Accumulate([e], f) == Plus(Accumulate([], f), f(e));
    assert f(e) == t;
    assert Plus(NoTotals, t) == t;
  }

  lemma {:induction false} AccumulateAppend(a: seq<EncounterEntry>, b: seq<EncounterEntry>, f: EncounterEntry -> Totals)
    ensures Accumulate(a + b, f) == Plus(Accumulate(a, f), Accumulate(b, f))
    decreases |b|
  {
    if b == [] {
      assert a + b == a;
    } else {
      assert (a + b)[..|a + b| - 1] == a + b[..|b| - 1];
      AccumulateAppend(a, b[..|b| - 1], f);
    }
  }

  /** The totals add up entry by entry: those of two parts of an encounter
      are the sums of the parts' totals. */
  lemma SummaryAppend(a: seq<EncounterEntry>, b: seq<EncounterEntry>, monsters: seq<Monster>)
    ensures Summary(a + b, monsters) == Plus(Summary(a, monsters), Summary(b, monsters))
  {
    AccumulateAppend(a, b, EntryFn(monsters));
  }

  /** An entry that refers to no monster changes no total. */
  lemma SummaryIgnoresDangling(encounter: seq<EncounterEntry>, e: EncounterEntry, monsters: seq<Monster>)
    requires forall i :: 0 <= i < |monsters| ==> monsters[i].id != e.monsterId
    ensures Summary(encounter + [e], monsters) == Summary(encounter, monsters)
  {
    SummaryAppend(encounter, [e], monsters);
    SummaryOfOne(e, monsters);
  }

  /** The totals of a prefix one entry longer. */
  lemma SummarySnoc(encounter: seq<EncounterEntry>, i: nat, monsters: seq<Monster>)
    requires i < |encounter|
    ensures Summary(encounter[..i + 1], monsters) == Plus(Summary(encounter[..i], monsters), EntryTotals(encounter[i], monsters))
  {
    assert encounter[..i + 1][..i] == encounter[..i];
    assert EntryFn(monsters)(encounter[i]) == EntryTotals(encounter[i], monsters);
  }

  /** `encounterSummary`. */
  method EncounterSummary(encounter: seq<EncounterEntry>, monsters: seq<Monster>) returns (totals: Totals)
    ensures totals == Summary(encounter, monsters)
  {
    var totalHp := 0;
    var totalCr := 0.0;
    var count := 0;
    for i := 0 to |encounter|
      invariant Totals(totalHp, totalCr, count) == Summary(encounter[..i], monsters)
    {
      var e := encounter[i];
      SummarySnoc(encounter, i, monsters);
      ghost var before := Totals(totalHp, totalCr, count);
      var found := FindMonster(monsters, e.monsterId);
      if found.Some? {
        var m := found.value;
        var qty := if e.quantity == 0 then 1 else e.quantity;
        totalHp := totalHp + m.hp.GetOr(0) * qty;
        totalCr := totalCr + m.cr.GetOr(0.0) * qty as real;
        count := count + qty;
      }
      assert Totals(totalHp, totalCr, count) == Plus(before, EntryTotals(e, monsters));
    }
    assert encounter[..|encounter|] == encounter;
    totals := Totals(totalHp, totalCr, count);
  }

  // ---------------------------------------------------------------------
  // filteredMonsters

  function NameContains(term: string): Monster -> bool {
    (m: Monster) => Contains(Lower(m.name), term)
  }

  /** `filteredMonsters`: all monsters for a blank search, otherwise those
      whose lower-cased name contains the trimmed, lower-cased search. */
  function FilteredMonsters(monsters: seq<Monster>, search: string): seq<Monster> {
    var term := Lower(Trim(search));
    if term == [] then monsters else Filter(monsters, NameContains(term))
  }

  lemma BlankTrimsEmpty(s: string)
    ensures Trim(s) == [] <==> forall i :: 0 <= i < |s| ==> IsSpace(s[i])
  {
    TrimSlice(s);
    if forall i :: 0 <= i < |s| ==> IsSpace(s[i]) {
      TrimAllSpaces(s);
    }
  }

  /** A search of whitespace alone shows every monster. */
  lemma FilteredMonstersBlank(monsters: seq<Monster>, search: string)
    requires forall i :: 0 <= i < |search| ==> IsSpace(search[i])
    ensures FilteredMonsters(monsters, search) == monsters
  {
    BlankTrimsEmpty(search);
  }

  /** Any other search keeps exactly the monsters whose lower-cased name
      contains the term, each as often as before. */
  lemma FilteredMonstersExactly(monsters: seq<Monster>, search: string, m: Monster)
    requires exists i :: 0 <= i < |search| && !IsSpace(search[i])
    ensures var term := Lower(Trim(search));
      multiset(FilteredMonsters(monsters, search))[m]
        == if Contains(Lower(m.name), term) then multiset(monsters)[m] else 0
  {
    BlankTrimsEmpty(search);
    FilterMultiset(monsters, NameContains(Lower(Trim(search))), m);
  }

  /** The monsters shown keep the order of the list: the ones shown from a
      prefix are a prefix of the ones shown. */
  lemma FilteredMonstersInOrder(monsters: seq<Monster>, search: string, n: nat)
    requires n <= |monsters|
    ensures var shown, early := FilteredMonsters(monsters, search), FilteredMonsters(monsters[..n], search);
      |early| <= |shown| && early == shown[..|early|]
  {
    var term := Lower(Trim(search));
    if term != [] {
      FilterPrefix(monsters, n, NameContains(term));
    }
  }

  // ---------------------------------------------------------------------
  // Submit guards

  /** `onSubmit`: a name of whitespace alone adds nothing; any other form is
      added with a fresh id. */
  method OnSubmit(store: Monsters.MonsterStore, form: Monster, freshId: string)
    modifies store
    ensures (forall i :: 0 <= i < |form.name| ==> IsSpace(form.name[i])) ==>
      store.monsters == old(store.monsters)
    ensures (exists i :: 0 <= i < |form.name| && !IsSpace(form.name[i])) ==>
      store.monsters == old(store.monsters) + [form.(id := freshId)]
    ensures store.encounter == old(store.encounter)
  {
    BlankTrimsEmpty(form.name);
    if Trim(form.name) == [] {
      return;
    }
    store.AddMonster(form, freshId);
  }

  /** `onEncounterSubmit`: an empty monster id adds nothing. The id is not
      trimmed and not checked against the monster list. */
  method OnEncounterSubmit(store: Monsters.MonsterStore, entry: EncounterEntry, freshId: string)
    modifies store
    ensures entry.monsterId == "" ==> store.encounter == old(store.encounter)
    ensures entry.monsterId != "" ==> store.encounter == old(store.encounter) + [entry.(id := freshId)]
    ensures store.monsters == old(store.monsters)
  {
    if entry.monsterId == "" {
      return;
    }
    store.AddEncounterEntry(entry, freshId);
  }
}
