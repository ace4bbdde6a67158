# rust-citysim core, modelled in Dafny

This project models five pieces of the city-builder simulation core as pure
Dafny functions over immutable datatypes, and proves properties about them:

- **Storage slots** (`Storage`, `StorageProps`). A storage building has up
  to eight fixed-capacity slots. Each slot is either free or allocated to
  one resource kind.
  - Deliveries go to the first slot of the kind that still has room, and
    otherwise to the first free slot.
  - Counts are clamped to the slot capacity.
  - Removals saturate at zero and release the slot.
  - Shopping takes one unit of every wanted kind, and can be told to take
    all or nothing.
- **Update timer and neighbourhood queries** (`Sim`, `SimProps`). The
  fixed-step timer accumulates frame time. It asks for a world update once
  the accumulated time reaches the frequency. `Simulation::update` hands the
  world the time accumulated before the tick. The queries scan a square
  window around a building for a building of a given kind.
- **World building registry** (`SimWorld`, `WorldProps`). There is one
  building list per archetype. Adding a building gives its tile a handle
  made of the list index and the kind flag. Removal and lookup decode the
  handle to pick the list.
- **Building configuration** (`Config`, `ConfigProps`). This is the
  hard-coded table, the partial `find_*_config` lookups, and `instantiate`,
  which maps a tile name to a building of a fixed kind and archetype.
- **Tile placement** (`Placement`, `PlacementProps`). These are the rules
  for placing a building, unit or terrain tile on a layered tile map, and
  for clearing one, including multi-cell buildings with blocker cells.

Supporting modules:

- `Wrappers` (Option)
- `Coords` (cells, inclusive cell ranges and their row-by-row iteration)
- `Resources` (resource kinds)
- `BuildingKinds` (building kinds, archetypes, kind flags, game-state handles)
- `Buildings` (building records and their configuration records)

Conventions:

- A panic or `debug_assert!` in the game is a `requires` clause.
- `StorageSlots::new` is the exception. Its panic is modelled as `None`, because the condition is decidable from the configuration. `Config.Instantiate` only builds a storage from a configuration for which `Storage.New` gives `Some` (`ConfigProps.LoadedStorageConfigsUsable`).
- Integers are unbounded. The u32 overflow of a slot increment is a `requires`.
- Time is an exact `real`, not an `f32`.

The tick that finds the accumulated time at or past the frequency resets
it and drops that frame's delta. So at 0.5 s, three 0.2 s frames run no
update (the clock reads 0.6 s), and the fourth frame runs one with a world
delta of 0.6 s (`SimProps.SchedulerScenario`).

Assumptions about code that is not part of this model:

- utils/coords.rs: a cell range includes both corners and is visited row by row (y outer, x inner).
- sim/resources.rs:
  - the food kinds (`ResourceKind::foods()`) are rice, meat and fish;
  - adding a kind to the shopping basket (`ResourceStock::add`) adds one unit of it, modelled as `basket + multiset{kind}`.
- tile/map.rs:
  - the invalid game-state handle is a constructor of its own (`InvalidHandle`). A `Handle` is always valid, so a handle whose index equals the game's sentinel value would count as valid here;
  - the queries' tile lookup (`find_tile` on the objects layer) is modelled as a map from cell to the game-state handle of the building tile there (`Sim.ObjectTiles`). A lookup succeeds for the cells the map holds.
- building/mod.rs:
  - the kind flags are distinct single bits;
  - `BuildingList` fills the first vacant entry, or appends, and removal vacates one entry.
- tile_old/map.rs and tile_old/sets.rs (used by tile placement):
  - a tile lookup succeeds for the cells each layer holds;
  - a cell is in bounds when `0 <= x < width` and `0 <= y < height`;
  - the two footprint calculations are parameters.

## Model

| member | source | states |
|---|---|---|
| Storage.IncrementAsWritten | game/src/game/building/storage.rs:258-278 | As written, incrementing always leaves the slot allocated to the kind and returns the slot's new count, even for an amount of zero. |
| Storage.IncrementAsWrittenLeaksSlot | game/src/game/building/storage.rs:264-271 | Incrementing a free slot by zero leaves it allocated with count 0, which breaks the slot invariant. |
| Storage.Increment | game/src/game/building/storage.rs:258-278 | The corrected increment. The slot invariant is kept, and the count is clamped to capacity (the gain is `min(amount, capacity - prev)`). A free slot becomes allocated to the kind exactly when something is added. A slot of another kind is a fatal error. |
| Storage.Decrement | game/src/game/building/storage.rs:280-299 | Removal saturates at 0, and the slot is released exactly when its count reaches 0. A slot holding none of the kind is left unchanged and reports 0. Other kinds' counts are untouched. |
| Storage.New | game/src/game/building/storage.rs:311-327 | Construction is rejected exactly for an empty accepted list, zero slots, zero capacity, or more than 8 slots. Otherwise the result is valid, with `numSlots` free slots of the given capacity. |
| Storage.SlotResourceCount | game/src/game/building/storage.rs:338-342 | A slot's count of a kind is at most the capacity, and it is positive exactly when the slot is allocated to that kind. |
| Storage.DecrementSlotResourceCount | game/src/game/building/storage.rs:350-354 | Decrementing one slot keeps the storage valid and leaves every other slot unchanged. The new count is the old one less the saturated amount. |
| Storage.FindFreeSlot | game/src/game/building/storage.rs:366-375 | Returns the first free slot, or `None` when no slot is free. |
| Storage.FindResourceSlot | game/src/game/building/storage.rs:376-389 | Returns the first slot allocated to the kind, whether full or not, or `None` when there is none. |
| Storage.AllocResourceSlot | game/src/game/building/storage.rs:391-406 | Returns the first slot allocated to the kind that is not full. Failing that, it returns the first free slot, and failing that, `None`. |
| Storage.HowManyCanFit | game/src/game/building/storage.rs:408-424 | How many units of a kind still fit, on any storage the code's own receiving reaches (`ValidAsWritten`). This is never more than slots × capacity. |
| Storage.AreAllSlotsFull | game/src/game/building/storage.rs:356-365 | True exactly when every slot is allocated and at capacity. |
| Storage.ReceiveResources | game/src/game/building/storage.rs:427-440 | Receiving, on the corrected increment, keeps the storage valid, never takes more than offered, and changes nothing when no slot can be found. Otherwise it takes `min(count, capacity - prev)` into the chosen slot only, and that is positive when anything is offered. |
| Storage.ReceiveResourcesAsWritten | game/src/game/building/storage.rs:427-440 | Receiving as the code does it keeps only the looser `ValidAsWritten`, in which an allocated slot may be empty. It changes nothing when no slot can be found. Otherwise it takes `min(count, capacity - prev)`, and the chosen slot ends up allocated to the kind even when nothing was taken. |
| Storage.ReceiveAsWrittenAgreesUnlessNothingOffered | game/src/game/building/storage.rs:258-278 | On valid storage, the code's receive and the corrected receive give the same result exactly unless an offer of zero lands in a free slot. In that case the code leaves the slot allocated with count 0, and the storage is no longer `Valid`. |
| Storage.Shop | game/src/game/building/storage.rs:168-182 | With all-or-nothing set, a list naming a kind the building does not hold leaves storage and basket unchanged and returns no kinds. |
| StorageProps.IncrementThenDecrement | game/src/game/building/storage.rs:258-299 | On a well-formed slot, decrementing by what an increment actually added gives back the original slot, so a slot that was free is free again. |
| StorageProps.IncrementAgreesUnlessNothingAdded | game/src/game/building/storage.rs:258-278 | The corrected increment and the code's increment differ exactly when a free slot is incremented by zero. |
| StorageProps.LeakedSlotStaysAllocated | game/src/game/building/storage.rs:280-299 | A slot left allocated with a zero count is never released by a decrement. A decrement of it returns 0 and changes nothing. |
| StorageProps.NewHasFullRoom | game/src/game/building/storage.rs:408-424 | A new building fits slots × capacity of any kind and holds nothing. |
| StorageProps.AllocFailsIffNoRoom | game/src/game/building/storage.rs:391-424 | No slot can be allocated for a kind exactly when `how_many_can_fit` for that kind is 0. |
| StorageProps.StockIffResourceSlot | game/src/game/building/storage.rs:376-389 | The building holds some of a kind exactly when a slot is allocated to it. |
| StorageProps.AllFullIffNoRoom | game/src/game/building/storage.rs:356-424 | All slots are full exactly when no kind fits any more. |
| StorageProps.ReceiveMovesStock | game/src/game/building/storage.rs:427-440 | Receiving raises the stock of the kind by exactly the amount reported, and leaves every other kind's stock unchanged. |
| StorageProps.ReceiveConsumesRoom | game/src/game/building/storage.rs:408-440 | The room for the kind after receiving, plus the amount received, equals the room before. |
| StorageProps.ReceivePositiveIffRoom | game/src/game/building/storage.rs:427-440 | A positive offer is partly taken exactly when `how_many_can_fit` is positive. |
| StorageProps.TakeOne | game/src/game/building/storage.rs:189-200 | Taking one unit from a kind's slot lowers that kind's stock by exactly one and leaves other kinds alone. |
| StorageProps.ShopTakesHeldKinds | game/src/game/building/storage.rs:168-202 | The returned kinds are exactly the wanted kinds in stock. |
| StorageProps.ShopConservesStock | game/src/game/building/storage.rs:168-202 | For every kind, stock plus basket is conserved, and kinds not on the list are untouched. |
| StorageProps.ShopBasketGainsTaken | game/src/game/building/storage.rs:168-202 | For a list without repeats, the basket gains exactly one unit of each returned kind. |
| StorageProps.ShopAllOrNothing | game/src/game/building/storage.rs:173-202 | With all-or-nothing set, either nothing changes or every wanted kind is taken. |
| StorageProps.CapacityScenario | game/src/game/building/storage.rs:391-440 | 8 slots of 4: rice fits 32. After two deliveries of 4 rice, rice and meat each fit 24. |
| StorageProps.ShoppingScenario | game/src/game/building/storage.rs:168-202 | With one rice and no meat, an all-or-nothing trip for rice and meat takes nothing. A trip for rice alone takes that one rice into the basket. |
| StorageProps.ReceiveNothingScenario | game/src/game/building/storage.rs:427-440 | On a new eight-slot rice and meat storage, the code's receive of zero rice leaves slot 0 allocated to rice and empty, which is not `Valid`. The corrected receive changes nothing. |
| StorageProps.ShadowedStockScenario | game/src/game/building/storage.rs:376-389 | On two slots of four, the code's receives and a decrement can leave an empty slot 0 leaked to rice in front of a full rice slot 1. The slot found for rice is then the empty one although four rice are held, so a shopping step for rice takes nothing. |
| Sim.NewTimer | src/game/sim/mod.rs:97-102 | A new timer keeps its frequency and starts with nothing accumulated. |
| Sim.Tick | src/game/sim/mod.rs:104-115 | A tick asks for an update exactly when the accumulated time has reached the frequency. It then resets to 0 and drops this delta; otherwise it adds the delta. |
| Sim.NewSimulation | src/game/sim/mod.rs:41-55 | The simulation's timer runs at 0.5 s and starts at 0. |
| Sim.Update | src/game/sim/mod.rs:56-69 | A frame runs at most one world update, exactly when the timer fires. The world delta is the time accumulated before the tick. |
| Sim.CalcSearchRange | src/game/sim/mod.rs:231-241 | Growing a valid range by a positive radius gives a valid range that contains the start range. |
| Sim.IsNearBuilding | src/game/sim/mod.rs:185-206 | True exactly when some cell of the search window holds a valid handle whose decoded kind is the requested one. |
| Sim.FindNearestBuilding | src/game/sim/mod.rs:208-229 | Returns the registry's building for the first matching cell in scan order, or `None` when no cell matches. |
| SimProps.NoConsecutiveUpdates | src/game/sim/mod.rs:104-115 | With a positive frequency, an updating tick is never followed by another updating tick. |
| SimProps.UpdatesAtMostEveryOtherTick | src/game/sim/mod.rs:104-115 | Over n ticks there are at most (n+1)/2 updates, and at most n/2 when the clock starts below the frequency. |
| SimProps.ClockStaysBounded | src/game/sim/mod.rs:104-115 | With deltas in [0, d], the accumulated time stays in [0, frequency + d). |
| SimProps.NoUpdateAccumulates | src/game/sim/mod.rs:110-114 | A run of ticks without an update accumulates exactly the sum of the deltas. |
| SimProps.UpdateOnceFrequencyReached | src/game/sim/mod.rs:104-115 | Once the accumulated time reaches the frequency, the next tick updates: no update is skipped. |
| SimProps.SchedulerScenario | src/game/sim/mod.rs:56-115 | At 0.5 s, three 0.2 s frames run no update. The fourth frame runs one with a delta of 0.6 s and resets the clock. |
| SimProps.SearchRangeIsNeighbourhood | src/game/sim/mod.rs:231-241 | A cell is in the search window exactly when it is within the radius, on both axes, of some start cell. |
| SimProps.NearIffMatchInWindow | src/game/sim/mod.rs:185-206 | Being near a building means exactly that some cell inside the window rectangle matches. |
| SimProps.FindAgreesWithNear | src/game/sim/mod.rs:185-229 | When tiles and registry agree, the finder succeeds exactly when `is_near_building` holds, and finds a building of the requested kind. |
| SimProps.AddedBuildingIsNear | src/game/sim/mod.rs:185-206 | A building added to the registry, with its handle put on a cell within the radius, is then near. |
| SimWorld.ListAdd | game/src/game/sim/world.rs:71-72 | Adding returns a previously vacant index that now holds the building. No other entry changes. |
| SimWorld.ListRemove | game/src/game/sim/world.rs:91-94 | Removal reports whether the entry was occupied and vacates it. A failed removal changes nothing. |
| SimWorld.New | game/src/game/sim/world.rs:38-49 | The new world has one empty list per archetype, and the list at position i has archetype i. |
| SimWorld.Reset | game/src/game/sim/world.rs:51-55 | Reset empties every list and keeps each list's archetype. |
| SimWorld.GetBuildingList | game/src/game/sim/world.rs:129-132 | The list returned for archetype a holds only buildings of archetype a. |
| SimWorld.SetBuildingList | game/src/game/sim/world.rs:134-137 | Replacing one archetype's list leaves every other list unchanged. |
| SimWorld.AddBuilding | game/src/game/sim/world.rs:67-75 | The building goes into its archetype's list at a fresh index, and the handle is that index with the kind flag. Every other entry and list is unchanged. |
| SimWorld.RemoveBuilding | game/src/game/sim/world.rs:77-95 | An invalid handle changes nothing. A valid handle vacates exactly its entry in the decoded archetype's list; a failed removal is fatal. |
| SimWorld.FindBuildingForTile | game/src/game/sim/world.rs:98-110 | An invalid handle finds nothing. A found building is well formed and of the handle's archetype. Its storage slots keep the invariant the game's own receiving keeps (`Storage.ValidAsWritten`). |
| SimWorld.FindBuildingForTileMut | game/src/game/sim/world.rs:112-124 | Finds the same entry as the shared lookup, and returns where it is stored. |
| WorldProps.AddThenFind | game/src/game/sim/world.rs:67-110 | Round trip: looking up the handle that adding returns gives back the building. |
| WorldProps.AddKeepsOtherLookups | game/src/game/sim/world.rs:67-110 | Adding does not change the lookup of any handle that already found a building. |
| WorldProps.RemoveThenFind | game/src/game/sim/world.rs:77-110 | After removing a handle's building, looking that handle up finds nothing. |
| WorldProps.RemoveKeepsOtherLookups | game/src/game/sim/world.rs:77-110 | Removing does not change the lookup of any other handle. |
| WorldProps.AddThenRemove | game/src/game/sim/world.rs:67-110 | Adding a building and then removing it by its handle restores every lookup. |
| WorldProps.ArchetypePartition | game/src/game/sim/world.rs:31-49 | No building can sit in the lists of two different archetypes. |
| BuildingKinds.KindBitsRoundTrip | game/src/game/sim/world.rs:98-103 | Decoding the kind flag stored in a handle gives back the building's kind. |
| Config.FindHouseLevelConfig | game/src/game/building/config.rs:176-182 | The lookup is total over the three levels, and each level gets its own record. |
| Config.FindProducerConfig | game/src/game/building/config.rs:184-192 | Defined only for Farm with a rice-farm or livestock-farm tile; any other input is fatal. |
| Config.FindServiceConfig | game/src/game/building/config.rs:194-202 | Defined only for the two wells and the market; any other input is fatal. |
| Config.FindStorageConfig | game/src/game/building/config.rs:204-210 | Defined only for the granary and the storage yard; any other input is fatal. |
| Config.Instantiate | game/src/game/building/config.rs:217-272 | Yields a building exactly for the eight known tile names. Its kind is the one fixed for the name, over the tile's cells, and the building is well formed. An unknown name gives `None`. |
| ConfigProps.LoadedStorageConfigsUsable | game/src/game/building/config.rs:149-168 | Both storage configurations have a non-empty accepted list, 8 slots and capacity 4, so building their slots never fails. |
| ConfigProps.HouseLevelsLoaded | game/src/game/building/config.rs:63-92 | The house levels allow 2, 4 and 6 residents and pay 0, 1 and 2 tax. |
| ConfigProps.LookupsMatchTileNames | game/src/game/building/config.rs:56-210 | Each lookup returns the record whose tile name is the one that instantiates the looked-up kind. |
| ConfigProps.InstantiateArchetypes | game/src/game/building/config.rs:217-272 | well_small, well_big and market give services; house0 gives a house; the farms give producers; granary and storage_yard give storage. |
| Placement.CellsOverlap | src/tile_old/placement.rs:22-31 | True exactly when some cell of one footprint equals some cell of the other. |
| Placement.CellsOverlapIffShared | src/tile_old/placement.rs:22-31 | Overlap means a shared cell, and it is symmetric. |
| Placement.TryPlaceTileInLayer | src/tile_old/placement.rs:33-114 | A building over a unit, over an overlapping building, or onto a blocked multi-cell footprint is rejected with the map unchanged. So is a unit over a building or blocker. Placement succeeds exactly when no rule rejects and the target has a tile; the target then takes the definition and the other footprint cells become blockers owned by the target. Nothing else changes. |
| Placement.TryClearTileFromLayer | src/tile_old/placement.rs:116-142 | Returns false exactly when the target lookup fails, and then nothing changes. Clearing a building or blocker empties every footprint cell including the target. Nothing else changes. |
| PlacementProps.FailedPlacementChangesNothing | src/tile_old/placement.rs:33-114 | On a map whose layers cover its bounds, a placement fails exactly when a rule rejects it. Then nothing has changed, and the map stays well formed. |
| PlacementProps.ClearKeepsMapWellFormed | src/tile_old/placement.rs:116-142 | On such a map, clearing always succeeds and keeps the map well formed. |
| PlacementProps.PlaceThenClearRestores | src/tile_old/placement.rs:33-142 | Clearing undoes placement: a building placed on empty cells and then cleared with the same footprint gives back the original map. |
| PlacementProps.PlacementKeepsUnitsClear | src/tile_old/placement.rs:43-106 | Placement never leaves a unit on a building or blocker cell. |
| PlacementProps.ClearKeepsUnitsClear | src/tile_old/placement.rs:116-142 | Clearing never puts a unit on a building or blocker cell. |
| PlacementProps.ScenarioBuildingPlaced | src/tile_old/placement.rs:33-114 | On an empty 2x2 map, a 2x2 building goes in at (0, 0). Its own cell holds it, and (1, 1) becomes a blocker owned by (0, 0) that carries the building's flags. |
| PlacementProps.ScenarioBlockersRefuse | src/tile_old/placement.rs:43-106 | Once the building is in, a unit cannot go onto its blocker cell (1, 1), and a second building cannot go onto (1, 0). Both refusals leave the map as it was. |
| PlacementProps.ScenarioClearRestores | src/tile_old/placement.rs:116-142 | Clearing the building with its footprint gives back the empty map. |
| PlacementProps.ScenarioUnitFitsWhenCleared | src/tile_old/placement.rs:97-111 | On the empty map, the unit can go onto (1, 1). |

## Left out

- The per-slot `ResourceStock` is not modelled. A slot is reduced to its allocated kind and that kind's count, because only that entry is ever written.
- `StorageBuilding::visited_by`, the storage debug UI and the gain/loss logging are left out. They depend on unit and UI code that is not part of this model.
- Storage.HowManyCanFit: the game sums into a u32, so a total above 2^32 - 1 would overflow. The model sums unboundedly, because real configurations stay far below that (8 × 4 units).
- Storage.SlotResourceCount: it requires the corrected `Valid`, so that its count is positive exactly when the slot is allocated to the kind. A slot leaked by the code (allocated with count 0) is outside its contract.
- Storage.DecrementSlotResourceCount: it requires and keeps the corrected `Valid`. Decrementing a slot leaked by the code is described only at slot level, by `Storage.Decrement` and `StorageProps.LeakedSlotStaysAllocated`.
- Storage.ReceiveResources: it is built on the corrected increment (`Storage.Increment`), and `Valid` is the corrected slot invariant: a slot is allocated exactly when it holds something. The code breaks that invariant on an offer of zero into a free slot (see Findings). So every contract that requires `Valid` (`Storage.Shop`, `Storage.SlotResourceCount`, `Storage.DecrementSlotResourceCount` and the storage properties) describes the corrected behaviour. The code's own behaviour is `Storage.ReceiveResourcesAsWritten`, which keeps only `ValidAsWritten`. The world (`Buildings.WellFormed`, `SimWorld.Valid`) and the neighbourhood queries ask only for `ValidAsWritten`, so they cover the states the code reaches.
- Storage.ReceiveResources: the receiving slot's count of the kind plus the offer must fit in a u32 (`CanReceive`). The game checks this addition and panics in debug builds.
- Storage.Shop: the game iterates its shopping list (`ResourceKinds`) in order, and the model does the same with a sequence. The model does not assume the list is free of repeats. The basket result for a list without repeats is stated separately (`StorageProps.ShopBasketGainsTaken`).
- Sim.Update: the world update it triggers (`World::update`), the random generator and the `Query` aliasing are left out. Only the timer and the world delta are modelled.
- Sim.CalcSearchRange: the i32 coordinates are unbounded here, so an overflow near the i32 limits is not modelled.
- Sim.FindNearestBuilding: the query returns the building, not a mutable reference. `SimWorld.FindBuildingForTileMut` states where that building is stored.
- Sim.Tick: `f32` rounding of the accumulated time is not modelled. Time is exact.
- The tile-name hashes (FNV-1a) are modelled by comparing the names themselves.
- The full resource flag set that the storage yard accepts is a parameter of `Config.Load`.
- Config.Instantiate: the house, service, producer and storage behaviours are reduced to the configuration records they keep. Their per-building state and update logic are not part of this model.
- `World::update` and the building debug popups are left out.
- Placement.TryPlaceTileInLayer: in the multi-cell case, blockers are written before the target lookup, so a failed lookup there would return false after changing the map. The contract says so. It cannot happen on a map whose layers cover its bounds (`PlacementProps.FailedPlacementChangesNothing`).
- `try_place_tile_at_cursor` and `try_clear_tile_at_cursor` are left out. They depend on screen-to-cell transforms.

## Findings

| source | as written | input that shows it | evidently intended | confidence | as-written member | corrected member |
|---|---|---|---|---|---|---|
| game/src/game/building/storage.rs:258-278 | `increment_resource_count` allocates a free slot to the kind whatever the amount, including zero. | `receive_resources(Rice, 0)` on a new granary leaves slot 0 allocated to rice with count 0. No decrement releases it while its count stays 0, because a decrement of a zero count does nothing. A leaked slot also shadows real stock: `find_resource_slot` returns the first slot allocated to the kind, so an empty leaked slot in front of a full one makes `shop` take nothing of that kind. With all-or-nothing set, the same state trips the debug assertion that an allocated slot holds something. | A free slot is allocated only when something is added. Then a slot is allocated exactly when its count is non-zero. | not executed | Storage.IncrementAsWritten, Storage.IncrementAsWrittenLeaksSlot, StorageProps.LeakedSlotStaysAllocated, Storage.ReceiveResourcesAsWritten, StorageProps.ReceiveNothingScenario, StorageProps.ShadowedStockScenario | Storage.Increment, Storage.ReceiveResources |
