/** Properties of tile placement and clearing. */
module PlacementProps {
  import opened Coords
  import opened Placement

  /**
   * On a map whose layers cover exactly its bounds, the target lookup never
   * fails, so a placement fails only through a rule, and then nothing changed.
   */
  lemma FailedPlacementChangesNothing(m: TileMap, layer: LayerKind, target: Cell, def: TileDef,
                                      targetFootprint: seq<Cell>, currentFootprint: seq<Cell>)
    requires WellFormedMap(m) && InBounds(m, target)
    requires def.kind in {Terrain, Building, Unit}
    requires LayerFor(def.kind) == layer
    ensures var r := TryPlaceTileInLayer(m, layer, target, def, targetFootprint, currentFootprint);
            && (r.1 <==> !PlacementRejected(m, layer, target, def, targetFootprint, currentFootprint))
            && (!r.1 ==> r.0 == m)
            && WellFormedMap(r.0)
  {
    var r := TryPlaceTileInLayer(m, layer, target, def, targetFootprint, currentFootprint);
    assert target in LayerOf(m, layer);
    forall k, c ensures c in LayerOf(r.0, k) <==> InBounds(r.0, c) {
      assert c in LayerOf(m, k) <==> InBounds(m, c);
      assert c in LayerOf(r.0, k).Keys <==> c in LayerOf(m, k).Keys;
    }
  }

  /** Clearing keeps a well-formed map well formed and always succeeds on it. */
  lemma ClearKeepsMapWellFormed(m: TileMap, layer: LayerKind, target: Cell, currentFootprint: seq<Cell>)
    requires WellFormedMap(m) && InBounds(m, target)
    ensures TryClearTileFromLayer(m, layer, target, currentFootprint).1
    ensures WellFormedMap(TryClearTileFromLayer(m, layer, target, currentFootprint).0)
  {
    var r := TryClearTileFromLayer(m, layer, target, currentFootprint);
    assert target in LayerOf(m, layer);
    forall k, c ensures c in LayerOf(r.0, k) <==> InBounds(r.0, c) {
      assert c in LayerOf(m, k) <==> InBounds(m, c);
      assert c in LayerOf(r.0, k).Keys <==> c in LayerOf(m, k).Keys;
    }
  }

  /**
   * Clearing undoes a building placement: placing a building on a footprint
   * of empty cells and then clearing it with that footprint gives back the
   * original map.
   */
  lemma PlaceThenClearRestores(m: TileMap, target: Cell, def: TileDef, footprint: seq<Cell>,
                               currentFootprint: seq<Cell>)
    requires InBounds(m, target)
    requires def.kind == Building
    requires target in m.buildings && m.buildings[target] == EmptyTile
    requires forall c :: c in m.buildings && c in footprint ==> m.buildings[c] == EmptyTile
    requires TryPlaceTileInLayer(m, BuildingsLayer, target, def, footprint, currentFootprint).1
    ensures var placed := TryPlaceTileInLayer(m, BuildingsLayer, target, def, footprint, currentFootprint).0;
            TryClearTileFromLayer(placed, BuildingsLayer, target, footprint) == (m, true)
  {
    var placed := TryPlaceTileInLayer(m, BuildingsLayer, target, def, footprint, currentFootprint).0;
    var cleared := TryClearTileFromLayer(placed, BuildingsLayer, target, footprint).0;
    assert HasTile(placed, target, BuildingsLayer, {Building, Blocker});
    assert cleared.buildings.Keys == m.buildings.Keys;
    forall c | c in m.buildings
      ensures cleared.buildings[c] == m.buildings[c]
    {
      if c != target && !(c in footprint) {
        assert placed.buildings[c] == m.buildings[c];
      }
    }
    assert cleared.buildings == m.buildings;
    assert LayerOf(cleared, TerrainLayer) == LayerOf(m, TerrainLayer);
    assert LayerOf(cleared, UnitsLayer) == LayerOf(m, UnitsLayer);
  }

  /** No cell has a unit standing on a building or on a building's blocker. */
  ghost predicate UnitsClearOfBuildings(m: TileMap) {
    forall c :: !(HasTile(m, c, BuildingsLayer, {Building, Blocker}) && HasTile(m, c, UnitsLayer, {Unit}))
  }

  /** Placement keeps units and buildings apart. */
  lemma PlacementKeepsUnitsClear(m: TileMap, layer: LayerKind, target: Cell, def: TileDef,
                                 targetFootprint: seq<Cell>, currentFootprint: seq<Cell>)
    requires WellFormedMap(m) && UnitsClearOfBuildings(m)
    requires InBounds(m, target)
    requires def.kind in {Terrain, Building, Unit}
    requires LayerFor(def.kind) == layer
    ensures UnitsClearOfBuildings(TryPlaceTileInLayer(m, layer, target, def, targetFootprint, currentFootprint).0)
  {
    var r := TryPlaceTileInLayer(m, layer, target, def, targetFootprint, currentFootprint);
    FailedPlacementChangesNothing(m, layer, target, def, targetFootprint, currentFootprint);
    if r.1 {
      forall c ensures !(HasTile(r.0, c, BuildingsLayer, {Building, Blocker}) && HasTile(r.0, c, UnitsLayer, {Unit})) {
        assert !(HasTile(m, c, BuildingsLayer, {Building, Blocker}) && HasTile(m, c, UnitsLayer, {Unit}));
        assert c in LayerOf(r.0, layer).Keys <==> c in LayerOf(m, layer).Keys;
        if def.kind == Building {
          assert LayerOf(r.0, UnitsLayer) == LayerOf(m, UnitsLayer);
          if c == target {
            assert !HasTile(m, target, UnitsLayer, {Unit});
          } else if def.multiCell && c in targetFootprint {
            var i :| 0 <= i < |targetFootprint| && targetFootprint[i] == c;
            assert !CellBlocked(m, layer, targetFootprint[i]);
          } else if c in LayerOf(m, layer) {
            assert LayerOf(r.0, layer)[c] == LayerOf(m, layer)[c];
          }
        } else if def.kind == Unit {
          assert LayerOf(r.0, BuildingsLayer) == LayerOf(m, BuildingsLayer);
          if c != target && c in LayerOf(m, layer) {
            assert LayerOf(r.0, layer)[c] == LayerOf(m, layer)[c];
          }
        } else {
          assert LayerOf(r.0, BuildingsLayer) == LayerOf(m, BuildingsLayer);
          assert LayerOf(r.0, UnitsLayer) == LayerOf(m, UnitsLayer);
        }
      }
    }
  }

  /** Clearing only empties cells, so it keeps units and buildings apart too. */
  lemma ClearKeepsUnitsClear(m: TileMap, layer: LayerKind, target: Cell, currentFootprint: seq<Cell>)
    requires UnitsClearOfBuildings(m)
    requires InBounds(m, target)
    ensures UnitsClearOfBuildings(TryClearTileFromLayer(m, layer, target, currentFootprint).0)
  {
    var r := TryClearTileFromLayer(m, layer, target, currentFootprint);
    forall c ensures !(HasTile(r.0, c, BuildingsLayer, {Building, Blocker}) && HasTile(r.0, c, UnitsLayer, {Unit})) {
      assert !(HasTile(m, c, BuildingsLayer, {Building, Blocker}) && HasTile(m, c, UnitsLayer, {Unit}));
      assert c in LayerOf(r.0, layer).Keys <==> c in LayerOf(m, layer).Keys;
      if c in LayerOf(m, layer) && c != target &&
         !(HasTile(m, target, layer, {Building, Blocker}) && c in currentFootprint) {
        assert LayerOf(r.0, layer)[c] == LayerOf(m, layer)[c];
      }
    }
  }

  // ----------------------------------------------
  // Worked scenario: a 2x2 building on a 2x2 map
  // ----------------------------------------------

  const ScenarioEmptyLayer: Layer :=
    map[Cell(0, 0) := EmptyTile, Cell(1, 0) := EmptyTile, Cell(0, 1) := EmptyTile, Cell(1, 1) := EmptyTile]
  const ScenarioMap: TileMap := TileMap(2, 2, ScenarioEmptyLayer, ScenarioEmptyLayer, ScenarioEmptyLayer)
  const ScenarioHouse: TileDef := TileDef("house", Building, true, 7)
  const ScenarioUnit: TileDef := TileDef("settler", Unit, false, 0)
  const ScenarioFootprint: seq<Cell> := [Cell(0, 0), Cell(1, 0), Cell(0, 1), Cell(1, 1)]

  /** The 2x2 building placed at (0, 0) on the empty map. */
  function ScenarioBuilt(): TileMap {
    TryPlaceTileInLayer(ScenarioMap, BuildingsLayer, Cell(0, 0), ScenarioHouse, ScenarioFootprint, [Cell(0, 0)]).0
  }

  /** The building goes in: its own cell holds it and the other three cells are its blockers. */
  lemma ScenarioBuildingPlaced()
    ensures TryPlaceTileInLayer(ScenarioMap, BuildingsLayer, Cell(0, 0), ScenarioHouse, ScenarioFootprint, [Cell(0, 0)]).1
    ensures ScenarioBuilt().buildings[Cell(0, 0)] == DefTile(ScenarioHouse)
    ensures ScenarioBuilt().buildings[Cell(1, 1)] == BlockerTile(Cell(0, 0), 7)
  {
    assert !AnyCellBlocked(ScenarioMap, BuildingsLayer, ScenarioFootprint);
    assert ScenarioFootprint[3] == Cell(1, 1);
  }

  /** Neither a unit nor a second building can go onto a blocker cell. */
  lemma ScenarioBlockersRefuse()
    ensures TryPlaceTileInLayer(ScenarioBuilt(), UnitsLayer, Cell(1, 1), ScenarioUnit, [Cell(1, 1)], [Cell(1, 1)])
            == (ScenarioBuilt(), false)
    ensures TryPlaceTileInLayer(ScenarioBuilt(), BuildingsLayer, Cell(1, 0), ScenarioHouse, ScenarioFootprint, ScenarioFootprint)
            == (ScenarioBuilt(), false)
  {
    ScenarioBuildingPlaced();
    var m1 := ScenarioBuilt();
    assert ScenarioFootprint[1] == Cell(1, 0);
    assert HasTile(m1, Cell(1, 1), BuildingsLayer, {Building, Blocker});
    assert HasTile(m1, Cell(1, 0), BuildingsLayer, {Building, Blocker});
  }

  /** Clearing the building gives back the empty map. */
  lemma ScenarioClearRestores()
    ensures TryClearTileFromLayer(ScenarioBuilt(), BuildingsLayer, Cell(0, 0), ScenarioFootprint) == (ScenarioMap, true)
  {
    ScenarioBuildingPlaced();
    assert forall c :: c in ScenarioMap.buildings ==> ScenarioMap.buildings[c] == EmptyTile;
    PlaceThenClearRestores(ScenarioMap, Cell(0, 0), ScenarioHouse, ScenarioFootprint, [Cell(0, 0)]);
  }

  /** On the empty map the unit fits on (1, 1). */
  lemma ScenarioUnitFitsWhenCleared()
    ensures TryPlaceTileInLayer(ScenarioMap, UnitsLayer, Cell(1, 1), ScenarioUnit, [Cell(1, 1)], [Cell(1, 1)]).1
  {
    assert !HasTile(ScenarioMap, Cell(1, 1), BuildingsLayer, {Building, Blocker});
  }
}
