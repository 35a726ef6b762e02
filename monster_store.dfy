/** src/store/monsters.ts: the user's own monster list and the current
    encounter. Every action replaces one or both lists; persistence is not
    modelled, and fresh ids are arguments of the actions. */
module Monsters {
  import opened Wrappers
  import opened Text
  import opened Types
  import opened Seqs

  /** `Partial<Monster>`: `Some` for each key the patch holds. */
  datatype MonsterPatch = MonsterPatch(
    id: Option<string>,
    name: Option<string>,
    creatureType: Option<Option<string>>,
    cr: Option<Option<real>>,
    hp: Option<Option<int>>,
    ac: Option<Option<int>>,
    notes: Option<Option<string>>,
    imageUrl: Option<Option<string>>)

  /** `{ ...m, ...patch }`. */
  function MergeMonster(m: Monster, patch: MonsterPatch): (r: Monster)
    ensures patch == MonsterPatch(None, None, None, None, None, None, None, None) ==> r == m
    ensures patch.id.None? ==> r.id == m.id
  {
    Monster(patch.id.GetOr(m.id), patch.name.GetOr(m.name), patch.creatureType.GetOr(m.creatureType),
            patch.cr.GetOr(m.cr), patch.hp.GetOr(m.hp), patch.ac.GetOr(m.ac), patch.notes.GetOr(m.notes),
            patch.imageUrl.GetOr(m.imageUrl))
  }

  function MonsterHasId(id: string): Monster -> bool {
    (m: Monster) => m.id == id
  }

  function MonsterId(m: Monster): string {
    m.id
  }

  function MonsterLacksId(id: string): Monster -> bool {
    KeyIsNot(MonsterId, id)
  }

  function PatchMonster(patch: MonsterPatch): Monster -> Monster {
    (m: Monster) => MergeMonster(m, patch)
  }

  function EntryId(e: EncounterEntry): string {
    e.id
  }

  function EntryMonsterId(e: EncounterEntry): string {
    e.monsterId
  }

  function EntryLacksId(id: string): EncounterEntry -> bool {
    KeyIsNot(EntryId, id)
  }

  function EntryNotFor(monsterId: string): EncounterEntry -> bool {
    KeyIsNot(EntryMonsterId, monsterId)
  }

  /** `monsters.map(m => m.id === id ? { ...m, ...patch } : m)`. */
  function UpdateMonsters(monsters: seq<Monster>, id: string, patch: MonsterPatch): seq<Monster> {
    MapWhere(monsters, MonsterHasId(id), PatchMonster(patch))
  }

  // ---------------------------------------------------------------------
  // Seeding from the monster books

  /** `new Set(monsters.map(m => m.name.toLowerCase()))`. */
  function ExistingNames(monsters: seq<Monster>): (names: set<string>)
    ensures forall x :: x in names <==> exists i :: 0 <= i < |monsters| && Lower(monsters[i].name) == x
  {
    set i | 0 <= i < |monsters| :: Lower(monsters[i].name)
  }

  /** The filter callback: the lower-cased name is not taken. */
  function IsNewName(names: set<string>): Monster -> bool {
    (m: Monster) => Lower(m.name) !in names
  }

  /** `toAdd.map(m => ({ ...m, id: crypto.randomUUID() }))`, the `k`-th id
      being `newId(k)`. */
  function WithFreshIds(ms: seq<Monster>, newId: nat -> string): (r: seq<Monster>)
    ensures |r| == |ms|
  {
    seq(|ms|, k requires 0 <= k < |ms| => ms[k].(id := newId(k)))
  }

  /** The incoming monsters whose lower-cased name is new. */
  function ToAdd(existing: seq<Monster>, incoming: seq<Monster>): seq<Monster> {
    Filter(incoming, IsNewName(ExistingNames(existing)))
  }

  /** The monster list after `seedFromBookMonsters`. */
  function Seeded(existing: seq<Monster>, incoming: seq<Monster>, newId: nat -> string): seq<Monster> {
    var toAdd := ToAdd(existing, incoming);
    if |toAdd| == 0 then existing else existing + WithFreshIds(toAdd, newId)
  }

  /** The existing monsters stay in front, and after them come the new
      monsters in input order, each with its newId id. */
  lemma SeededShape(existing: seq<Monster>, incoming: seq<Monster>, newId: nat -> string)
    ensures var r, toAdd := Seeded(existing, incoming, newId), ToAdd(existing, incoming);
      && |r| == |existing| + |toAdd|
      && r[..|existing|] == existing
      && forall k :: 0 <= k < |toAdd| ==> r[|existing| + k] == toAdd[k].(id := newId(k))
  {
    var r, toAdd := Seeded(existing, incoming, newId), ToAdd(existing, incoming);
    if |toAdd| != 0 {
      assert r[..|existing|] == existing;
    }
  }

  /** The monsters added are exactly the incoming ones with a new name,
      each as often as it comes in: a name repeated within the batch is
      added each time. */
  lemma ToAddExactly(existing: seq<Monster>, incoming: seq<Monster>, m: Monster)
    ensures multiset(ToAdd(existing, incoming))[m]
      == if Lower(m.name) in ExistingNames(existing) then 0 else multiset(incoming)[m]
  {
    FilterMultiset(incoming, IsNewName(ExistingNames(existing)), m);
  }

  /** No monster added has the name of an existing monster, ignoring case. */
  lemma ToAddNamesAreNew(existing: seq<Monster>, incoming: seq<Monster>, k: nat, i: nat)
    requires k < |ToAdd(existing, incoming)| && i < |existing|
    ensures Lower(ToAdd(existing, incoming)[k].name) != Lower(existing[i].name)
  {
    var names := ExistingNames(existing);
    assert Lower(existing[i].name) in names;
    assert IsNewName(names)(ToAdd(existing, incoming)[k]);
  }

  /** When every incoming name is taken the list is unchanged. */
  lemma SeededNothingNew(existing: seq<Monster>, incoming: seq<Monster>, newId: nat -> string)
    requires forall j :: 0 <= j < |incoming| ==> Lower(incoming[j].name) in ExistingNames(existing)
    ensures Seeded(existing, incoming, newId) == existing
  {
    FilterNone(incoming, IsNewName(ExistingNames(existing)));
  }

  /** Seeding into an empty list adds every incoming monster. */
  lemma SeededIntoEmpty(incoming: seq<Monster>, newId: nat -> string)
    ensures Seeded([], incoming, newId) == WithFreshIds(incoming, newId)
  {
    assert ExistingNames([]) == {};
    FilterAll(incoming, IsNewName({}));
  }

  /** Two incoming monsters with the same new name are both added. */
  lemma SeededKeepsBatchDuplicates(existing: seq<Monster>, m: Monster, newId: nat -> string)
    requires Lower(m.name) !in ExistingNames(existing)
    ensures |Seeded(existing, [m, m], newId)| == |existing| + 2
  {
    ToAddExactly(existing, [m, m], m);
    SeededShape(existing, [m, m], newId);
  }

  // ---------------------------------------------------------------------
  // Removal

  /** `removeMonster` removes the monsters with that id and the encounter
      entries that refer to it, and keeps every other monster and entry as
      often as before. */
  lemma RemoveMonsterCascade(monsters: seq<Monster>, encounter: seq<EncounterEntry>, id: string,
                             m: Monster, e: EncounterEntry)
    ensures multiset(Filter(monsters, MonsterLacksId(id)))[m] == if m.id == id then 0 else multiset(monsters)[m]
    ensures multiset(Filter(encounter, EntryNotFor(id)))[e] == if e.monsterId == id then 0 else multiset(encounter)[e]
  {
    RemoveKeyExactly(monsters, MonsterId, id, m);
    RemoveKeyExactly(encounter, EntryMonsterId, id, e);
  }

  /** Updating twice with the same patch is updating once. */
  lemma UpdateMonstersIdempotent(monsters: seq<Monster>, id: string, patch: MonsterPatch)
    ensures UpdateMonsters(UpdateMonsters(monsters, id, patch), id, patch) == UpdateMonsters(monsters, id, patch)
  {
    MapWhereIdempotent(monsters, MonsterHasId(id), PatchMonster(patch));
  }

  /** The store. Encounter entries refer to monsters by id; nothing keeps
      those references valid except `RemoveMonster`. */
  class MonsterStore {
    var monsters: seq<Monster>
    var encounter: seq<EncounterEntry>

    constructor ()
      ensures monsters == [] && encounter == []
    {
      monsters := [];
      encounter := [];
    }

    method AddMonster(monster: Monster, freshId: string)
      modifies this
      ensures monsters == old(monsters) + [monster.(id := freshId)]
      ensures encounter == old(encounter)
    {
      monsters := monsters + [monster.(id := freshId)];
    }

    method UpdateMonster(id: string, patch: MonsterPatch)
      modifies this
      ensures monsters == UpdateMonsters(old(monsters), id, patch)
      ensures encounter == old(encounter)
    {
      monsters := UpdateMonsters(monsters, id, patch);
    }

    /** Removes the monster and every encounter entry that refers to it. */
    method RemoveMonster(id: string)
      modifies this
      ensures monsters == Filter(old(monsters), MonsterLacksId(id))
      ensures encounter == Filter(old(encounter), EntryNotFor(id))
    {
      monsters := Filter(monsters, MonsterLacksId(id));
      encounter := Filter(encounter, EntryNotFor(id));
    }

    /** Leaves the encounter as it is, even when its entries now refer to no
        monster. */
    method ClearMonsters()
      modifies this
      ensures monsters == [] && encounter == old(encounter)
    {
      monsters := [];
    }

    /** Appends the entry whatever its `monsterId`. */
    method AddEncounterEntry(entry: EncounterEntry, freshId: string)
      modifies this
      ensures encounter == old(encounter) + [entry.(id := freshId)]
      ensures monsters == old(monsters)
    {
      encounter := encounter + [entry.(id := freshId)];
    }

    method RemoveEncounterEntry(id: string)
      modifies this
      ensures encounter == Filter(old(encounter), EntryLacksId(id))
      ensures monsters == old(monsters)
    {
      encounter := Filter(encounter, EntryLacksId(id));
    }

    method ClearEncounter()
      modifies this
      ensures encounter == [] && monsters == old(monsters)
    {
      encounter := [];
    }

    method SeedFromBookMonsters(incoming: seq<Monster>, newId: nat -> string)
      modifies this
      ensures monsters == Seeded(old(monsters), incoming, newId)
      ensures encounter == old(encounter)
    {
      var existingNames := ExistingNames(monsters);
      var toAdd := Filter(incoming, IsNewName(existingNames));
      if |toAdd| == 0 {
        return;
      }
      monsters := monsters + WithFreshIds(toAdd, newId);
    }
  }
}
