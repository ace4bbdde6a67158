/** Handle round trips and isolation properties of the building registry. */
module WorldProps {
  import opened Wrappers
  import opened BuildingKinds
  import opened Buildings
  import opened SimWorld

  /** The handle `AddBuilding` publishes finds the building that was added. */
  lemma AddThenFind(w: World, b: Building)
    requires Valid(w) && WellFormed(b)
    ensures CanLookUp(AddBuilding(w, b).1)
    ensures FindBuildingForTile(AddBuilding(w, b).0, AddBuilding(w, b).1) == Some(b)
  {
    KindBitsRoundTrip(b.kind);
  }

  /** Adding a building leaves every lookup that found a building before unchanged. */
  lemma AddKeepsOtherLookups(w: World, b: Building, h: GameStateHandle)
    requires Valid(w) && WellFormed(b) && CanLookUp(h)
    requires FindBuildingForTile(w, h).Some?
    ensures FindBuildingForTile(AddBuilding(w, b).0, h) == FindBuildingForTile(w, h)
  {
    var (w', h') := AddBuilding(w, b);
    KindBitsRoundTrip(b.kind);
    if HandleArchetype(h) == ArchetypeOf(b.kind) {
      assert h.index != h'.index;
    }
  }

  /** After removal the removed handle finds nothing. */
  lemma RemoveThenFind(w: World, h: GameStateHandle)
    requires Valid(w) && CanRemove(w, h)
    ensures FindBuildingForTile(RemoveBuilding(w, h), h).None?
  {
  }

  /** Removal leaves every other handle's lookup unchanged. */
  lemma RemoveKeepsOtherLookups(w: World, h: GameStateHandle, other: GameStateHandle)
    requires Valid(w) && CanRemove(w, h) && CanLookUp(other)
    requires IsValidHandle(h) && IsValidHandle(other)
    requires HandleArchetype(other) != HandleArchetype(h) || other.index != h.index
    ensures FindBuildingForTile(RemoveBuilding(w, h), other) == FindBuildingForTile(w, other)
  {
  }

  /** Adding a building and removing it through its own handle empties its entry again. */
  lemma AddThenRemove(w: World, b: Building, other: GameStateHandle)
    requires Valid(w) && WellFormed(b) && CanLookUp(other)
    ensures CanRemove(AddBuilding(w, b).0, AddBuilding(w, b).1)
    ensures FindBuildingForTile(RemoveBuilding(AddBuilding(w, b).0, AddBuilding(w, b).1), other)
            == FindBuildingForTile(w, other)
  {
    var (w', h') := AddBuilding(w, b);
    KindBitsRoundTrip(b.kind);
    var w'' := RemoveBuilding(w', h');
    if IsValidHandle(other) {
      if HandleArchetype(other) == HandleArchetype(h') {
        if other.index == h'.index {
          assert TryGet(GetBuildingList(w'', HandleArchetype(h')), h'.index).None?;
        }
      }
    }
  }

  /** No building value can sit in two different archetype lists. */
  lemma ArchetypePartition(w: World, i: nat, j: nat, x: nat, y: nat)
    requires Valid(w)
    requires i < ARCHETYPE_COUNT && j < ARCHETYPE_COUNT && i != j
    requires x < |w.lists[i].entries| && w.lists[i].entries[x].Some?
    requires y < |w.lists[j].entries| && w.lists[j].entries[y].Some?
    ensures w.lists[i].entries[x] != w.lists[j].entries[y]
  {
    assert ArchetypeKindOfBuilding(w.lists[i].entries[x].value) == ArchetypeAt(i);
    assert ArchetypeKindOfBuilding(w.lists[j].entries[y].value) == ArchetypeAt(j);
  }
}
