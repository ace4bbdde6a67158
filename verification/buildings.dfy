/**
 * Building records: the per-archetype configuration records and behaviour
 * state a building carries. The records are declared in building/house.rs,
 * producer.rs, service.rs and mod.rs, which are not part of this model; only
 * the fields the configuration table sets appear, and behaviour state beyond
 * the storage slots is left out.
 */
module Buildings {
  import opened Resources
  import opened Coords
  import opened BuildingKinds
  import Storage

  datatype HouseLevel = Level0 | Level1 | Level2

  datatype HouseConfig = HouseConfig(stockUpdateFrequencySecs: real, upgradeUpdateFrequencySecs: real)

  /** Requirements are lists of "any of" masks, one mask per requirement. */
  datatype HouseLevelConfig = HouseLevelConfig(
    name: string,
    tileDefName: string,
    maxResidents: nat,
    taxGenerated: nat,
    servicesRequired: seq<set<BuildingKind>>,
    resourcesRequired: seq<set<ResourceKind>>)

  datatype ServiceConfig = ServiceConfig(
    name: string,
    tileDefName: string,
    minWorkers: nat,
    maxWorkers: nat,
    stockUpdateFrequencySecs: real,
    effectRadius: nat,
    resourcesRequired: set<ResourceKind>)

  datatype ProducerConfig = ProducerConfig(
    name: string,
    tileDefName: string,
    minWorkers: nat,
    maxWorkers: nat,
    productionOutputFrequencySecs: real,
    productionOutput: ResourceKind,
    productionCapacity: nat,
    resourcesRequired: set<ResourceKind>,
    resourcesCapacity: nat,
    storageBuildingsAccepted: set<BuildingKind>)

  datatype StorageConfig = StorageConfig(
    name: string,
    tileDefName: string,
    minWorkers: nat,
    maxWorkers: nat,
    resourcesAccepted: set<ResourceKind>,
    numSlots: nat,
    slotCapacity: nat)

  /** The archetype-specific part of a building. */
  datatype Behaviour =
    | ProducerBehaviour(producer: ProducerConfig)
    | StorageBehaviour(storage: StorageConfig, slots: Storage.StorageSlots)
    | ServiceBehaviour(service: ServiceConfig)
    | HouseBehaviour(level: HouseLevel)

  datatype Building = Building(kind: BuildingKind, cells: CellRange, behaviour: Behaviour)

  /** The archetype a building's behaviour belongs to. */
  function BehaviourArchetype(b: Behaviour): ArchetypeKind {
    match b
    case ProducerBehaviour(_) => ProducerKind
    case StorageBehaviour(_, _) => StorageKind
    case ServiceBehaviour(_) => ServiceKind
    case HouseBehaviour(_) => HouseKind
  }

  function ArchetypeKindOfBuilding(b: Building): ArchetypeKind {
    BehaviourArchetype(b.behaviour)
  }

  /**
   * A building whose kind belongs to the archetype of its behaviour, and
   * whose storage slots (if any) keep the invariant the game's own receiving
   * keeps (`Storage.ValidAsWritten`: an allocated slot may be empty).
   */
  predicate WellFormed(b: Building) {
    && ArchetypeOf(b.kind) == ArchetypeKindOfBuilding(b)
    && (b.behaviour.StorageBehaviour? ==> Storage.ValidAsWritten(b.behaviour.slots))
  }
}
