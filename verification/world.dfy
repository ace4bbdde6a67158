/**
 * The world's building registry (sim/world.rs): one building list per
 * archetype, addressed through the game-state handle stored on each
 * building's tile.
 *
 * The slotted `BuildingList` is declared in building/mod.rs, which is not
 * part of this model. It is modelled as a vector of optional entries: adding
 * fills the first vacant entry (or appends), removing vacates one entry and
 * reports whether it was occupied, and no other entry moves.
 */
module SimWorld {
  import opened Wrappers
  import opened BuildingKinds
  import opened Buildings

  // ----------------------------------------------
  // BuildingList
  // ----------------------------------------------

  datatype BuildingList = BuildingList(archetype: ArchetypeKind, entries: seq<Option<Building>>)

  function NewList(archetype: ArchetypeKind): BuildingList {
    BuildingList(archetype, [])
  }

  /** The building at `index`, if that entry is occupied. */
  function TryGet(list: BuildingList, index: nat): Option<Building> {
    if index < |list.entries| then list.entries[index] else None
  }

  function FirstVacantFrom(entries: seq<Option<Building>>, from: nat): (i: nat)
    requires from <= |entries|
    decreases |entries| - from
    ensures from <= i <= |entries|
    ensures i < |entries| ==> entries[i].None?
    ensures forall j :: from <= j < i ==> entries[j].Some?
  {
    if from == |entries| then from
    else if entries[from].None? then from
    else FirstVacantFrom(entries, from + 1)
  }

  /** Stores `b` in a vacant entry and returns the entry's index. */
  function ListAdd(list: BuildingList, b: Building): (r: (BuildingList, nat))
    ensures r.0.archetype == list.archetype
    ensures TryGet(list, r.1).None?
    ensures TryGet(r.0, r.1) == Some(b)
    ensures forall j :: j != r.1 ==> TryGet(r.0, j) == TryGet(list, j)
    ensures forall j :: 0 <= j < |r.0.entries| && r.0.entries[j].Some? ==>
              r.0.entries[j] == Some(b) || (j < |list.entries| && r.0.entries[j] == list.entries[j])
  {
    var i := FirstVacantFrom(list.entries, 0);
    if i < |list.entries| then
      (list.(entries := list.entries[i := Some(b)]), i)
    else
      (list.(entries := list.entries + [Some(b)]), i)
  }

  /** Vacates entry `index`; reports false (and changes nothing) when it was already vacant. */
  function ListRemove(list: BuildingList, index: nat): (r: (BuildingList, bool))
    ensures r.0.archetype == list.archetype
    ensures r.1 <==> TryGet(list, index).Some?
    ensures !r.1 ==> r.0 == list
    ensures TryGet(r.0, index).None?
    ensures forall j :: j != index ==> TryGet(r.0, j) == TryGet(list, j)
    ensures |r.0.entries| == |list.entries|
    ensures forall j :: 0 <= j < |r.0.entries| && r.0.entries[j].Some? ==> r.0.entries[j] == list.entries[j]
  {
    if TryGet(list, index).Some? then
      (list.(entries := list.entries[index := None]), true)
    else
      (list, false)
  }

  function ListClear(list: BuildingList): (r: BuildingList)
    ensures r.archetype == list.archetype
    ensures forall j :: TryGet(r, j).None?
  {
    list.(entries := [])
  }

  // ----------------------------------------------
  // World
  // ----------------------------------------------

  datatype World = World(lists: seq<BuildingList>)

  /** A list holding only well-formed buildings of archetype `a`. */
  predicate ListHolds(list: BuildingList, a: ArchetypeKind) {
    && list.archetype == a
    && forall j :: 0 <= j < |list.entries| && list.entries[j].Some? ==>
         WellFormed(list.entries[j].value) && ArchetypeKindOfBuilding(list.entries[j].value) == a
  }

  /** One list per archetype, each at its archetype's position and holding only that archetype. */
  predicate Valid(w: World) {
    && |w.lists| == ARCHETYPE_COUNT
    && forall i :: 0 <= i < ARCHETYPE_COUNT ==> ListHolds(w.lists[i], ArchetypeAt(i))
  }

  /** A world with one empty list per archetype, in archetype order. */
  function New(): (w: World)
    ensures Valid(w)
    ensures forall i :: 0 <= i < |w.lists| ==> w.lists[i].archetype == ArchetypeAt(i)
    ensures forall i, j :: 0 <= i < |w.lists| ==> TryGet(w.lists[i], j).None?
  {
    World([NewList(ArchetypeAt(0)), NewList(ArchetypeAt(1)), NewList(ArchetypeAt(2)), NewList(ArchetypeAt(3))])
  }

  /** Empties every list and keeps the lists themselves. */
  function Reset(w: World): (r: World)
    ensures |r.lists| == |w.lists|
    ensures forall i :: 0 <= i < |w.lists| ==> r.lists[i].archetype == w.lists[i].archetype
    ensures forall i, j :: 0 <= i < |r.lists| ==> TryGet(r.lists[i], j).None?
    ensures Valid(w) ==> Valid(r)
  {
    World(seq(|w.lists|, i requires 0 <= i < |w.lists| => ListClear(w.lists[i])))
  }

  /** The list for archetype `a`. */
  function GetBuildingList(w: World, a: ArchetypeKind): (list: BuildingList)
    requires |w.lists| == ARCHETYPE_COUNT
    ensures Valid(w) ==> ListHolds(list, a)
  {
    w.lists[ArchetypeIndex(a)]
  }

  /** Replaces the list for archetype `a`. */
  function SetBuildingList(w: World, a: ArchetypeKind, list: BuildingList): (r: World)
    requires |w.lists| == ARCHETYPE_COUNT
    ensures |r.lists| == ARCHETYPE_COUNT
    ensures GetBuildingList(r, a) == list
    ensures forall b :: b != a ==> GetBuildingList(r, b) == GetBuildingList(w, b)
  {
    World(w.lists[ArchetypeIndex(a) := list])
  }

  /**
   * Adds a building to the list of its archetype and returns the handle the
   * tile gets: the entry index and the building's kind flag.
   */
  function AddBuilding(w: World, b: Building): (r: (World, GameStateHandle))
    requires Valid(w) && WellFormed(b)
    ensures Valid(r.0)
    ensures r.1.Handle? && r.1.kindBits == KindBits(b.kind)
    ensures TryGet(GetBuildingList(w, ArchetypeOf(b.kind)), r.1.index).None?
    ensures TryGet(GetBuildingList(r.0, ArchetypeOf(b.kind)), r.1.index) == Some(b)
    ensures forall j :: j != r.1.index ==>
              TryGet(GetBuildingList(r.0, ArchetypeOf(b.kind)), j) == TryGet(GetBuildingList(w, ArchetypeOf(b.kind)), j)
    ensures forall a :: a != ArchetypeOf(b.kind) ==> GetBuildingList(r.0, a) == GetBuildingList(w, a)
  {
    var a := ArchetypeKindOfBuilding(b);
    var (list, index) := ListAdd(GetBuildingList(w, a), b);
    (SetBuildingList(w, a, list), Handle(index, KindBits(b.kind)))
  }

  /** The archetype a valid building handle points into. */
  function HandleArchetype(h: GameStateHandle): ArchetypeKind
    requires IsBuildingHandle(h)
  {
    ArchetypeOf(KindFromBits(h.kindBits).value)
  }

  /**
   * What removal demands: a valid handle must decode to a building kind and
   * name an occupied entry (a failed removal is a panic in the game).
   */
  predicate CanRemove(w: World, h: GameStateHandle)
    requires |w.lists| == ARCHETYPE_COUNT
  {
    IsValidHandle(h) ==> IsBuildingHandle(h) && TryGet(GetBuildingList(w, HandleArchetype(h)), h.index).Some?
  }

  /**
   * Removes the building a tile's handle names. A tile without a valid
   * handle is reported (logged in the game) and nothing changes.
   */
  function RemoveBuilding(w: World, h: GameStateHandle): (r: World)
    requires Valid(w) && CanRemove(w, h)
    ensures Valid(r)
    ensures !IsValidHandle(h) ==> r == w
    ensures IsValidHandle(h) ==>
              && TryGet(GetBuildingList(r, HandleArchetype(h)), h.index).None?
              && (forall j :: j != h.index ==>
                    TryGet(GetBuildingList(r, HandleArchetype(h)), j) == TryGet(GetBuildingList(w, HandleArchetype(h)), j))
              && (forall a :: a != HandleArchetype(h) ==> GetBuildingList(r, a) == GetBuildingList(w, a))
  {
    if !IsValidHandle(h) then w
    else
      var a := HandleArchetype(h);
      var (list, removed) := ListRemove(GetBuildingList(w, a), h.index);
      assert removed;
      SetBuildingList(w, a, list)
  }

  /** What a handle lookup demands: a valid handle must carry a building kind flag. */
  predicate CanLookUp(h: GameStateHandle) {
    IsValidHandle(h) ==> IsBuildingHandle(h)
  }

  /**
   * The building a tile's handle names: `None` for an invalid handle or a
   * vacant entry, otherwise the entry of the decoded archetype's list.
   */
  function FindBuildingForTile(w: World, h: GameStateHandle): (r: Option<Building>)
    requires Valid(w) && CanLookUp(h)
    ensures !IsValidHandle(h) ==> r.None?
    ensures r.Some? ==> WellFormed(r.value) && ArchetypeOf(r.value.kind) == HandleArchetype(h)
  {
    if IsValidHandle(h) then TryGet(GetBuildingList(w, HandleArchetype(h)), h.index) else None
  }

  /** Where a found building lives: its list position and entry index. */
  datatype BuildingLocation = BuildingLocation(list: nat, index: nat)

  /**
   * The mutable lookup: the same search as `FindBuildingForTile`, returning
   * the location of the entry so a caller can update it in place.
   */
  function FindBuildingForTileMut(w: World, h: GameStateHandle): (r: Option<BuildingLocation>)
    requires Valid(w) && CanLookUp(h)
    ensures r.Some? <==> FindBuildingForTile(w, h).Some?
    ensures r.Some? ==> r.value.list < |w.lists| && r.value.index < |w.lists[r.value.list].entries|
    ensures r.Some? ==> w.lists[r.value.list].entries[r.value.index] == FindBuildingForTile(w, h)
  {
    if IsValidHandle(h) && TryGet(GetBuildingList(w, HandleArchetype(h)), h.index).Some? then
      Some(BuildingLocation(ArchetypeIndex(HandleArchetype(h)), h.index))
    else
      None
  }
}
