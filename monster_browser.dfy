/** src/components/MonsterBrowser.tsx: the state of the monster browser,
    the list of types offered as filter chips and the monster shown in
    detail. */
module Browser {
  import opened Wrappers
  import opened Text
  import opened Seqs
  import opened Sorting
  import opened Bestiary
  import opened MonsterSearch

  /** The filters the browser starts with: no text and nothing selected. */
  const InitialFilters := MonsterFilters("", [], None, None, [], [])

  /** The sort order the browser starts with. */
  const InitialSortBy := ByName
  const InitialDirection := Asc

  /** `m.type` is the non-empty string `t`. */
  predicate HasType(m: Monster, t: string) {
    m.creatureType == Some(t) && t != ""
  }

  /** `availableTypes`: the non-empty types of the monsters, each once, in
      the order of `Array.prototype.sort`. */
  method AvailableTypes(monsters: seq<Monster>) returns (types: seq<string>)
    ensures SortedBy(types, StrLess) && Distinct(types)
    ensures forall t :: t in types <==> exists i :: 0 <= i < |monsters| && HasType(monsters[i], t)
  {
    var seen: seq<string> := [];
    for i := 0 to |monsters|
      invariant Distinct(seen)
      invariant forall t :: t in seen <==> exists j :: 0 <= j < i && HasType(monsters[j], t)
    {
      var m := monsters[i];
      if m.creatureType.Some? && m.creatureType.value != "" && m.creatureType.value !in seen {
        DistinctSnoc(seen, m.creatureType.value);
        seen := seen + [m.creatureType.value];
      }
    }
    SortedNames(seen);
    types := SortWith(seen, StrLess);
  }

  function IdIs(id: string): Monster -> bool {
    (m: Monster) => m.id == id
  }

  /** `filtered.find(m => m.id === selectedId) ?? filtered[0]`: the monster
      with the selected id, else the first one listed, else none. */
  function Selected(filtered: seq<Monster>, selectedId: Option<string>): (r: Option<Monster>)
    ensures selectedId.Some? && (exists i :: 0 <= i < |filtered| && filtered[i].id == selectedId.value) ==>
      r.Some? && exists k ::
        && 0 <= k < |filtered| && r.value == filtered[k] && r.value.id == selectedId.value
        && forall j :: 0 <= j < k ==> filtered[j].id != selectedId.value
    ensures (selectedId.None? || forall i :: 0 <= i < |filtered| ==> filtered[i].id != selectedId.value) ==>
      r == if filtered == [] then None else Some(filtered[0])
  {
    var k := if selectedId.None? then -1 else FirstWhere(filtered, IdIs(selectedId.value));
    if k != -1 then Some(filtered[k])
    else if filtered == [] then None
    else Some(filtered[0])
  }

  /** The button next to the sort chips. */
  function ToggleDirection(d: Direction): (r: Direction)
    ensures r != d
  {
    if d == Asc then Desc else Asc
  }

  /** Pressing it twice restores the direction. */
  lemma ToggleDirectionTwice(d: Direction)
    ensures ToggleDirection(ToggleDirection(d)) == d
  {
  }

  /** With the initial filters every monster is listed, as often as it
      occurs, in the order of the chosen comparator. */
  lemma InitialListsAll(monsters: seq<Monster>, sortBy: SortBy, d: Direction)
    ensures var r := FilterAndSortMonsters(monsters, InitialFilters, sortBy, d);
      multiset(r) == multiset(monsters) && SortedBy(r, Before(sortBy, d))
  {
    NoFiltersKeepsAll(monsters, InitialFilters, sortBy, d);
    FilterAndSortSorted(monsters, InitialFilters, sortBy, d);
  }
}
