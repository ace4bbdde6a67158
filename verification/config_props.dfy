/** Facts about the loaded configuration table and the buildings it yields. */
module ConfigProps {
  import opened Wrappers
  import opened Resources
  import opened Coords
  import opened BuildingKinds
  import opened Buildings
  import opened Config
  import Storage

  /**
   * Both storage configurations have a non-empty accepted list, eight slots
   * of capacity four, so building their slots never panics.
   */
  lemma LoadedStorageConfigsUsable(allResources: set<ResourceKind>)
    requires Foods <= allResources
    ensures var c := Load(allResources);
            && c.storageYard.numSlots == 8 && c.storageYard.slotCapacity == 4
            && c.storageGranary.numSlots == 8 && c.storageGranary.slotCapacity == 4
            && c.storageYard.resourcesAccepted != {} && c.storageGranary.resourcesAccepted != {}
            && ConfigsUsable(c)
  {
    assert Rice in Foods;
  }

  /** Every house level has a record; residents grow 2, 4, 6 and taxes 0, 1, 2. */
  lemma HouseLevelsLoaded(allResources: set<ResourceKind>)
    requires Foods <= allResources
    ensures var c := Load(allResources);
            && FindHouseLevelConfig(c, Level0).maxResidents == 2
            && FindHouseLevelConfig(c, Level1).maxResidents == 4
            && FindHouseLevelConfig(c, Level2).maxResidents == 6
            && FindHouseLevelConfig(c, Level0).taxGenerated == 0
            && FindHouseLevelConfig(c, Level1).taxGenerated == 1
            && FindHouseLevelConfig(c, Level2).taxGenerated == 2
  {
  }

  /**
   * Each lookup returns the record whose tile name is the one that
   * instantiates a building of the looked-up kind.
   */
  lemma LookupsMatchTileNames(allResources: set<ResourceKind>, tileName: string)
    requires Foods <= allResources
    requires tileName in TileNameKinds
    ensures var c := Load(allResources);
            var kind := TileNameKinds[tileName];
            && (IsServiceKind(kind) ==> FindServiceConfig(c, kind).tileDefName == tileName)
            && (IsStorageKind(kind) ==> FindStorageConfig(c, kind).tileDefName == tileName)
            && (kind == Farm ==> IsFarmTileName(tileName) && FindProducerConfig(c, kind, tileName).tileDefName == tileName)
            && (kind == House ==> FindHouseLevelConfig(c, Level0).tileDefName == tileName)
  {
  }

  /**
   * The kinds each tile name instantiates, grouped by archetype: wells and
   * market are services, house0 a house, the farms producers, granary and
   * storage yard storage.
   */
  lemma InstantiateArchetypes(allResources: set<ResourceKind>, tileName: string, cells: CellRange)
    requires Foods <= allResources
    ensures ConfigsUsable(Load(allResources))
    ensures var r := Instantiate(tileName, cells, Load(allResources));
            && (tileName in {"well_small", "well_big", "market"} ==> r.Some? && ArchetypeKindOfBuilding(r.value) == ServiceKind)
            && (tileName == "house0" ==> r.Some? && r.value.kind == House && ArchetypeKindOfBuilding(r.value) == HouseKind)
            && (tileName in {"rice_farm", "livestock_farm"} ==> r.Some? && r.value.kind == Farm && ArchetypeKindOfBuilding(r.value) == ProducerKind)
            && (tileName in {"granary", "storage_yard"} ==> r.Some? && ArchetypeKindOfBuilding(r.value) == StorageKind)
            && (tileName !in TileNameKinds ==> r.None?)
  {
    LoadedStorageConfigsUsable(allResources);
  }
}
