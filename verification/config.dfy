/**
 * The hard-coded building configuration table (building/config.rs) and the
 * tile-name driven instantiation of buildings.
 *
 * Tile-name hashes are compared in the game; here the names themselves are
 * compared, which is the same as long as the hash does not collide on them.
 */
module Config {
  import opened Wrappers
  import opened Resources
  import opened Coords
  import opened BuildingKinds
  import opened Buildings
  import Storage

  datatype BuildingConfigs = BuildingConfigs(
    houseCfg: HouseConfig,
    house0: HouseLevelConfig,
    house1: HouseLevelConfig,
    house2: HouseLevelConfig,
    serviceWellSmall: ServiceConfig,
    serviceWellBig: ServiceConfig,
    serviceMarket: ServiceConfig,
    producerRiceFarm: ProducerConfig,
    producerLivestockFarm: ProducerConfig,
    storageYard: StorageConfig,
    storageGranary: StorageConfig)

  /**
   * The table. `allResources` is the full resource flag set the storage yard
   * accepts (`ResourceKinds::all()`); the flag list itself is not part of
   * this model, so it is a parameter that must at least contain the foods.
   */
  function Load(allResources: set<ResourceKind>): BuildingConfigs
    requires Foods <= allResources
  {
    BuildingConfigs(
      HouseConfig(20.0, 10.0),
      HouseLevelConfig("House Level 0", "house0", 2, 0, [], []),
      HouseLevelConfig("House Level 1", "house1", 4, 1,
                       [{WellSmall, WellBig}, {Market}], [Foods]),
      HouseLevelConfig("House Level 2", "house2", 6, 2,
                       [{WellBig}, {Market}], [{Rice}, {Meat, Fish}]),
      ServiceConfig("Well Small", "well_small", 0, 1, 0.0, 3, {}),
      ServiceConfig("Well Big", "well_big", 0, 1, 0.0, 5, {}),
      ServiceConfig("Market", "market", 0, 1, 20.0, 5, Foods),
      ProducerConfig("Rice Farm", "rice_farm", 0, 1, 20.0, Rice, 5, {}, 0, {Granary}),
      ProducerConfig("Livestock Farm", "livestock_farm", 0, 1, 20.0, Meat, 5, {}, 0, {Granary}),
      StorageConfig("Storage Yard", "storage_yard", 0, 1, allResources, 8, 4),
      StorageConfig("Granary", "granary", 0, 1, Foods, 8, 4))
  }

  /** A storage configuration the slot constructor accepts without panicking. */
  predicate StorageConfigUsable(cfg: StorageConfig) {
    cfg.slotCapacity <= Storage.U32_MAX && Storage.New(cfg.resourcesAccepted, cfg.numSlots, cfg.slotCapacity).Some?
  }

  predicate ConfigsUsable(c: BuildingConfigs) {
    StorageConfigUsable(c.storageYard) && StorageConfigUsable(c.storageGranary)
  }

  function FindHouseConfig(c: BuildingConfigs): HouseConfig {
    c.houseCfg
  }

  /** The per-level record; every level has one. */
  function FindHouseLevelConfig(c: BuildingConfigs, level: HouseLevel): (r: HouseLevelConfig)
    ensures r in {c.house0, c.house1, c.house2}
    ensures level == Level0 ==> r == c.house0
    ensures level == Level1 ==> r == c.house1
    ensures level == Level2 ==> r == c.house2
  {
    match level
    case Level0 => c.house0
    case Level1 => c.house1
    case Level2 => c.house2
  }

  predicate IsFarmTileName(tileName: string) {
    tileName == "rice_farm" || tileName == "livestock_farm"
  }

  /** Producer lookup; the game panics unless the kind is a farm with a known farm tile. */
  function FindProducerConfig(c: BuildingConfigs, kind: BuildingKind, tileName: string): (r: ProducerConfig)
    requires kind == Farm && IsFarmTileName(tileName)
    ensures r in {c.producerRiceFarm, c.producerLivestockFarm}
  {
    if tileName == "rice_farm" then c.producerRiceFarm else c.producerLivestockFarm
  }

  predicate IsServiceKind(kind: BuildingKind) {
    kind == WellSmall || kind == WellBig || kind == Market
  }

  /** Service lookup; the game panics for any kind but the two wells and the market. */
  function FindServiceConfig(c: BuildingConfigs, kind: BuildingKind): (r: ServiceConfig)
    requires IsServiceKind(kind)
    ensures r in {c.serviceWellSmall, c.serviceWellBig, c.serviceMarket}
  {
    if kind == WellSmall then c.serviceWellSmall
    else if kind == WellBig then c.serviceWellBig
    else c.serviceMarket
  }

  predicate IsStorageKind(kind: BuildingKind) {
    kind == Granary || kind == StorageYard
  }

  /** Storage lookup; the game panics for any kind but the granary and the storage yard. */
  function FindStorageConfig(c: BuildingConfigs, kind: BuildingKind): (r: StorageConfig)
    requires IsStorageKind(kind)
    ensures r in {c.storageGranary, c.storageYard}
  {
    if kind == Granary then c.storageGranary else c.storageYard
  }

  /** The tile names that instantiate a building, and the kind each one yields. */
  const TileNameKinds: map<string, BuildingKind> := map[
    "well_small" := WellSmall,
    "well_big" := WellBig,
    "market" := Market,
    "house0" := House,
    "rice_farm" := Farm,
    "livestock_farm" := Farm,
    "granary" := Granary,
    "storage_yard" := StorageYard]

  function NewStorageBuilding(kind: BuildingKind, cells: CellRange, cfg: StorageConfig): (b: Building)
    requires StorageConfigUsable(cfg)
    ensures b.behaviour.StorageBehaviour? && Storage.Valid(b.behaviour.slots)
  {
    Building(kind, cells, StorageBehaviour(cfg, Storage.New(cfg.resourcesAccepted, cfg.numSlots, cfg.slotCapacity).value))
  }

  /**
   * Creates the building a placed tile stands for, or `None` (logged in the
   * game) for a tile name with no building. The requires is the slot
   * constructor's panic condition for the two storage configurations.
   */
  function Instantiate(tileName: string, cells: CellRange, c: BuildingConfigs): (r: Option<Building>)
    requires ConfigsUsable(c)
    ensures r.Some? <==> tileName in TileNameKinds
    ensures r.Some? ==> r.value.kind == TileNameKinds[tileName] && r.value.cells == cells
    ensures r.Some? ==> WellFormed(r.value)
  {
    if tileName == "well_small" then
      Some(Building(WellSmall, cells, ServiceBehaviour(FindServiceConfig(c, WellSmall))))
    else if tileName == "well_big" then
      Some(Building(WellBig, cells, ServiceBehaviour(FindServiceConfig(c, WellBig))))
    else if tileName == "market" then
      Some(Building(Market, cells, ServiceBehaviour(FindServiceConfig(c, Market))))
    else if tileName == "house0" then
      Some(Building(House, cells, HouseBehaviour(Level0)))
    else if tileName == "rice_farm" || tileName == "livestock_farm" then
      Some(Building(Farm, cells, ProducerBehaviour(FindProducerConfig(c, Farm, tileName))))
    else if tileName == "granary" then
      Some(NewStorageBuilding(Granary, cells, FindStorageConfig(c, Granary)))
    else if tileName == "storage_yard" then
      Some(NewStorageBuilding(StorageYard, cells, FindStorageConfig(c, StorageYard)))
    else
      None
  }
}
