/** src/store/party.ts: the party store, the player list and the initiative
    order. Every action replaces one of the two lists; persistence to local
    storage is not modelled. A fresh id that the source draws from
    `crypto.randomUUID` is an argument of the action. */
module Party {
  import opened Wrappers
  import opened Types
  import opened Seqs
  import opened Sorting

  /** `Partial<Player>`: a field is `Some` when the patch holds its key;
      an optional field's key may hold `undefined`, so its value is itself
      an `Option`. */
  datatype PlayerPatch = PlayerPatch(
    id: Option<string>,
    name: Option<string>,
    className: Option<Option<string>>,
    level: Option<Option<int>>,
    ac: Option<Option<int>>,
    hp: Option<Option<int>>,
    notes: Option<Option<string>>)

  /** `Partial<InitiativeEntry>`. */
  datatype InitiativePatch = InitiativePatch(
    id: Option<string>,
    name: Option<string>,
    initiative: Option<real>,
    hp: Option<Option<int>>,
    ac: Option<Option<int>>,
    notes: Option<Option<string>>)

  /** `{ ...p, ...patch }`. */
  function MergePlayer(p: Player, patch: PlayerPatch): (r: Player)
    ensures patch == PlayerPatch(None, None, None, None, None, None, None) ==> r == p
    ensures patch.name.Some? ==> r.name == patch.name.value
    ensures patch.id.None? ==> r.id == p.id
  {
    Player(patch.id.GetOr(p.id), patch.name.GetOr(p.name), patch.className.GetOr(p.className),
           patch.level.GetOr(p.level), patch.ac.GetOr(p.ac), patch.hp.GetOr(p.hp), patch.notes.GetOr(p.notes))
  }

  /** `{ ...e, ...patch }`. */
  function MergeInitiative(e: InitiativeEntry, patch: InitiativePatch): (r: InitiativeEntry)
    ensures patch == InitiativePatch(None, None, None, None, None, None) ==> r == e
    ensures patch.initiative.Some? ==> r.initiative == patch.initiative.value
    ensures patch.id.None? ==> r.id == e.id
  {
    InitiativeEntry(patch.id.GetOr(e.id), patch.name.GetOr(e.name), patch.initiative.GetOr(e.initiative),
                    patch.hp.GetOr(e.hp), patch.ac.GetOr(e.ac), patch.notes.GetOr(e.notes))
  }

  function PlayerHasId(id: string): Player -> bool {
    (p: Player) => p.id == id
  }

  function PlayerId(p: Player): string {
    p.id
  }

  function PlayerLacksId(id: string): Player -> bool {
    KeyIsNot(PlayerId, id)
  }

  function EntryHasId(id: string): InitiativeEntry -> bool {
    (e: InitiativeEntry) => e.id == id
  }

  function EntryId(e: InitiativeEntry): string {
    e.id
  }

  function EntryLacksId(id: string): InitiativeEntry -> bool {
    KeyIsNot(EntryId, id)
  }

  function PatchPlayer(patch: PlayerPatch): Player -> Player {
    (p: Player) => MergePlayer(p, patch)
  }

  function PatchEntry(patch: InitiativePatch): InitiativeEntry -> InitiativeEntry {
    (e: InitiativeEntry) => MergeInitiative(e, patch)
  }

  /** `players.map(p => p.id === id ? { ...p, ...patch } : p)`. */
  function UpdatePlayers(players: seq<Player>, id: string, patch: PlayerPatch): seq<Player> {
    MapWhere(players, PlayerHasId(id), PatchPlayer(patch))
  }

  /** `initiative.map(i => i.id === id ? { ...i, ...patch } : i)`. */
  function UpdateEntries(entries: seq<InitiativeEntry>, id: string, patch: InitiativePatch): seq<InitiativeEntry> {
    MapWhere(entries, EntryHasId(id), PatchEntry(patch))
  }

  /** The comparator `(b.initiative ?? 0) - (a.initiative ?? 0)` puts `a`
      strictly before `b`. */
  predicate RollsBefore(a: InitiativeEntry, b: InitiativeEntry) {
    b.initiative - a.initiative < 0.0
  }

  /** `[...initiative].sort(...)`: a stable sort, highest initiative first. */
  function SortedInitiative(entries: seq<InitiativeEntry>): seq<InitiativeEntry> {
    SortWith(entries, RollsBefore)
  }

  /** Merging a patch a second time changes nothing. */
  lemma MergePlayerIdempotent(p: Player, patch: PlayerPatch)
    ensures MergePlayer(MergePlayer(p, patch), patch) == MergePlayer(p, patch)
  {
  }

  /** Updating twice with the same patch is updating once, and an id that
      no player has leaves the list as it is. */
  lemma UpdatePlayersIdempotent(players: seq<Player>, id: string, patch: PlayerPatch)
    ensures UpdatePlayers(UpdatePlayers(players, id, patch), id, patch) == UpdatePlayers(players, id, patch)
    ensures (forall i :: 0 <= i < |players| ==> players[i].id != id) ==> UpdatePlayers(players, id, patch) == players
  {
    MapWhereIdempotent(players, PlayerHasId(id), PatchPlayer(patch));
    if forall i :: 0 <= i < |players| ==> players[i].id != id {
      MapWhereNoMatch(players, PlayerHasId(id), PatchPlayer(patch));
    }
  }

  lemma UpdateEntriesIdempotent(entries: seq<InitiativeEntry>, id: string, patch: InitiativePatch)
    ensures UpdateEntries(UpdateEntries(entries, id, patch), id, patch) == UpdateEntries(entries, id, patch)
    ensures (forall i :: 0 <= i < |entries| ==> entries[i].id != id) ==> UpdateEntries(entries, id, patch) == entries
  {
    MapWhereIdempotent(entries, EntryHasId(id), PatchEntry(patch));
    if forall i :: 0 <= i < |entries| ==> entries[i].id != id {
      MapWhereNoMatch(entries, EntryHasId(id), PatchEntry(patch));
    }
  }

  lemma RollsBeforeOrder()
    ensures StrictWeakOrder(RollsBefore)
  {
  }

  /** The sorted order is a rearrangement with non-increasing initiative. */
  lemma SortedInitiativeDescending(entries: seq<InitiativeEntry>, i: nat, j: nat)
    requires i < j < |entries|
    ensures var r := SortedInitiative(entries);
      multiset(r) == multiset(entries) && r[i].initiative >= r[j].initiative
  {
    RollsBeforeOrder();
    SortWithSorted(entries, RollsBefore);
    assert !RollsBefore(SortedInitiative(entries)[j], SortedInitiative(entries)[i]);
  }

  /** Entries with equal initiative keep their relative order. */
  lemma SortedInitiativeStable(entries: seq<InitiativeEntry>, e: InitiativeEntry)
    ensures Filter(SortedInitiative(entries), EquivTo(RollsBefore, e)) == Filter(entries, EquivTo(RollsBefore, e))
  {
    RollsBeforeOrder();
    SortWithStable(entries, RollsBefore, e);
  }

  /** Sorting an already sorted order changes nothing. */
  lemma SortedInitiativeIdempotent(entries: seq<InitiativeEntry>)
    ensures SortedInitiative(SortedInitiative(entries)) == SortedInitiative(entries)
  {
    RollsBeforeOrder();
    SortWithIdempotent(entries, RollsBefore);
  }

  /** The store: the two lists the actions replace. */
  class PartyStore {
    var players: seq<Player>
    var initiative: seq<InitiativeEntry>

    constructor ()
      ensures players == [] && initiative == []
    {
      players := [];
      initiative := [];
    }

    /** `addPlayer`: the player, with the fresh id, goes at the end. */
    method AddPlayer(player: Player, freshId: string)
      modifies this
      ensures players == old(players) + [player.(id := freshId)]
      ensures initiative == old(initiative)
    {
      players := players + [player.(id := freshId)];
    }

    method UpdatePlayer(id: string, patch: PlayerPatch)
      modifies this
      ensures players == UpdatePlayers(old(players), id, patch)
      ensures initiative == old(initiative)
    {
      players := UpdatePlayers(players, id, patch);
    }

    method RemovePlayer(id: string)
      modifies this
      ensures players == Filter(old(players), PlayerLacksId(id))
      ensures initiative == old(initiative)
    {
      players := Filter(players, PlayerLacksId(id));
    }

    method ClearPlayers()
      modifies this
      ensures players == [] && initiative == old(initiative)
    {
      players := [];
    }

    /** `addInitiative`: the entry, with the fresh id, goes at the end. */
    method AddInitiative(entry: InitiativeEntry, freshId: string)
      modifies this
      ensures initiative == old(initiative) + [entry.(id := freshId)]
      ensures players == old(players)
    {
      initiative := initiative + [entry.(id := freshId)];
    }

    method UpdateInitiative(id: string, patch: InitiativePatch)
      modifies this
      ensures initiative == UpdateEntries(old(initiative), id, patch)
      ensures players == old(players)
    {
      initiative := UpdateEntries(initiative, id, patch);
    }

    method RemoveInitiative(id: string)
      modifies this
      ensures initiative == Filter(old(initiative), EntryLacksId(id))
      ensures players == old(players)
    {
      initiative := Filter(initiative, EntryLacksId(id));
    }

    method SortInitiative()
      modifies this
      ensures initiative == SortedInitiative(old(initiative))
      ensures players == old(players)
    {
      initiative := SortedInitiative(initiative);
    }

    method ClearInitiative()
      modifies this
      ensures initiative == [] && players == old(players)
    {
      initiative := [];
    }
  }
}
