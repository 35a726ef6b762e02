/** src/components/MonsterFilters.tsx: the three chip toggles of the filter
    panel. Each hands a copy of the filters, with one list toggled, to the
    panel's `onChange`. */
module FilterPanel {
  import opened Seqs
  import opened Bestiary

  function Other(v: string): string -> bool {
    (x: string) => x != v
  }

  /** `has ? list.filter(x => x !== v) : [...list, v]`. */
  function Toggle(list: seq<string>, v: string): (r: seq<string>)
    ensures v in r <==> v !in list
  {
    if v in list then Filter(list, Other(v)) else list + [v]
  }

  /** A value that is absent goes at the end of the list. */
  lemma ToggleAbsent(list: seq<string>, v: string)
    requires v !in list
    ensures Toggle(list, v) == list + [v]
  {
  }

  /** Toggling a present value removes every occurrence of it, and keeps
      every other value as often as before and in the same order. */
  lemma TogglePresent(list: seq<string>, v: string, x: string, n: nat)
    requires v in list && n <= |list|
    ensures Absent(Toggle(list, v), v)
    ensures x != v ==> multiset(Toggle(list, v))[x] == multiset(list)[x]
    ensures var early := Filter(list[..n], Other(v));
      |early| <= |Toggle(list, v)| && early == Toggle(list, v)[..|early|]
  {
    FilterMultiset(list, Other(v), x);
    FilterPrefix(list, n, Other(v));
  }

  /** Toggling an absent value twice restores the list. */
  lemma ToggleTwice(list: seq<string>, v: string)
    requires v !in list
    ensures Toggle(Toggle(list, v), v) == list
  {
    FilterAppend(list, [v], Other(v));
    FilterAll(list, Other(v));
    FilterNone([v], Other(v));
  }

  /** `toggleSource`: only `sources` changes. */
  function ToggleSource(filters: MonsterFilters, id: string): (r: MonsterFilters)
    ensures r.(sources := filters.sources) == filters
    ensures id in r.sources <==> id !in filters.sources
  {
    filters.(sources := Toggle(filters.sources, id))
  }

  /** `toggleType`: only `types` changes. */
  function ToggleType(filters: MonsterFilters, t: string): (r: MonsterFilters)
    ensures r.(types := filters.types) == filters
    ensures t in r.types <==> t !in filters.types
  {
    filters.(types := Toggle(filters.types, t))
  }

  /** `toggleSize`: only `sizes` changes. */
  function ToggleSize(filters: MonsterFilters, size: string): (r: MonsterFilters)
    ensures r.(sizes := filters.sizes) == filters
    ensures size in r.sizes <==> size !in filters.sizes
  {
    filters.(sizes := Toggle(filters.sizes, size))
  }
}
