/**
 * The rules for placing tiles on, and clearing tiles from, the layered tile
 * map (tile_old/placement.rs).
 *
 * The tile map, tiles and tile definitions are declared in tile_old/map.rs and
 * tile_old/sets.rs, which are not part of this model. Each layer is modelled
 * as a map from cell to tile; a tile lookup succeeds exactly for the cells
 * in the layer's map. A tile is empty, holds a definition, or is a blocker
 * standing in for a multi-cell building whose owner sits on another cell.
 * The two footprint calculations are not modelled: callers pass the
 * footprints in.
 */
module Placement {
  import opened Coords

  // ----------------------------------------------
  // Tiles and tile map
  // ----------------------------------------------

  datatype TileKind = Empty | Terrain | Building | Unit | Blocker

  /** A tile definition: its kind, whether its footprint spans several cells, and its tile flags. */
  datatype TileDef = TileDef(name: string, kind: TileKind, multiCell: bool, flags: nat)

  datatype Tile =
    | EmptyTile
    | DefTile(def: TileDef)
    | BlockerTile(owner: Cell, ownerFlags: nat)

  function KindOf(t: Tile): TileKind {
    match t
    case EmptyTile => Empty
    case DefTile(def) => def.kind
    case BlockerTile(_, _) => Blocker
  }

  datatype LayerKind = TerrainLayer | BuildingsLayer | UnitsLayer

  /** The layer a tile kind lives on (blockers share the buildings layer). */
  function LayerFor(kind: TileKind): LayerKind
    requires kind != Empty
  {
    match kind
    case Terrain => TerrainLayer
    case Building => BuildingsLayer
    case Blocker => BuildingsLayer
    case Unit => UnitsLayer
  }

  type Layer = map<Cell, Tile>

  datatype TileMap = TileMap(width: int, height: int, terrain: Layer, buildings: Layer, units: Layer)

  predicate InBounds(m: TileMap, c: Cell) {
    0 <= c.x < m.width && 0 <= c.y < m.height
  }

  function LayerOf(m: TileMap, k: LayerKind): Layer {
    match k
    case TerrainLayer => m.terrain
    case BuildingsLayer => m.buildings
    case UnitsLayer => m.units
  }

  function WithLayer(m: TileMap, k: LayerKind, l: Layer): (r: TileMap)
    ensures r.width == m.width && r.height == m.height
    ensures LayerOf(r, k) == l
    ensures forall k' :: k' != k ==> LayerOf(r, k') == LayerOf(m, k')
  {
    match k
    case TerrainLayer => m.(terrain := l)
    case BuildingsLayer => m.(buildings := l)
    case UnitsLayer => m.(units := l)
  }

  /** Every layer holds a tile for exactly the cells within the map bounds. */
  ghost predicate WellFormedMap(m: TileMap) {
    forall k, c :: c in LayerOf(m, k) <==> InBounds(m, c)
  }

  /** The cell holds, on layer `k`, a tile of one of the kinds in `kinds`. */
  predicate HasTile(m: TileMap, c: Cell, k: LayerKind, kinds: set<TileKind>) {
    c in LayerOf(m, k) && KindOf(LayerOf(m, k)[c]) in kinds
  }

  // ----------------------------------------------
  // Footprint helpers
  // ----------------------------------------------

  function ContainsCell(cells: seq<Cell>, c: Cell): (r: bool)
    ensures r <==> exists j :: 0 <= j < |cells| && cells[j] == c
  {
    |cells| > 0 && (cells[0] == c || ContainsCell(cells[1..], c))
  }

  /** Whether the two footprints share a cell. */
  function CellsOverlap(lhs: seq<Cell>, rhs: seq<Cell>): (r: bool)
    ensures r <==> exists i, j :: 0 <= i < |lhs| && 0 <= j < |rhs| && lhs[i] == rhs[j]
  {
    |lhs| > 0 && (ContainsCell(rhs, lhs[0]) || CellsOverlap(lhs[1..], rhs))
  }

  /** Overlap means exactly a shared cell, whichever footprint comes first. */
  lemma CellsOverlapIffShared(lhs: seq<Cell>, rhs: seq<Cell>)
    ensures CellsOverlap(lhs, rhs) <==> exists c :: c in lhs && c in rhs
    ensures CellsOverlap(lhs, rhs) == CellsOverlap(rhs, lhs)
  {
    if CellsOverlap(lhs, rhs) {
      var i, j :| 0 <= i < |lhs| && 0 <= j < |rhs| && lhs[i] == rhs[j];
      assert lhs[i] in lhs && lhs[i] in rhs;
    }
    if c :| c in lhs && c in rhs {
      var i :| 0 <= i < |lhs| && lhs[i] == c;
      var j :| 0 <= j < |rhs| && rhs[j] == c;
      assert CellsOverlap(rhs, lhs);
    }
  }

  /** A footprint cell a building cannot take: out of bounds, already built on, or under a unit. */
  predicate CellBlocked(m: TileMap, layer: LayerKind, c: Cell) {
    || !InBounds(m, c)
    || HasTile(m, c, layer, {Building, Blocker})
    || HasTile(m, c, UnitsLayer, {Unit})
  }

  function AnyCellBlocked(m: TileMap, layer: LayerKind, cells: seq<Cell>): (r: bool)
    ensures r <==> exists i :: 0 <= i < |cells| && CellBlocked(m, layer, cells[i])
  {
    |cells| > 0 && (CellBlocked(m, layer, cells[0]) || AnyCellBlocked(m, layer, cells[1..]))
  }

  /** Turns every cell of `cells` other than `target` that has a tile into a blocker owned by `target`. */
  function MarkBlockers(l: Layer, cells: seq<Cell>, target: Cell, flags: nat): (r: Layer)
    ensures r.Keys == l.Keys
    ensures forall c :: c in l ==>
              r[c] == (if c in cells && c != target then BlockerTile(target, flags) else l[c])
  {
    if cells == [] then l
    else
      var c := cells[0];
      var l' := if c != target && c in l then l[c := BlockerTile(target, flags)] else l;
      MarkBlockers(l', cells[1..], target, flags)
  }

  /** Empties every cell of `cells` other than `target` that has a tile. */
  function ClearCells(l: Layer, cells: seq<Cell>, target: Cell): (r: Layer)
    ensures r.Keys == l.Keys
    ensures forall c :: c in l ==> r[c] == (if c in cells && c != target then EmptyTile else l[c])
  {
    if cells == [] then l
    else
      var c := cells[0];
      var l' := if c != target && c in l then l[c := EmptyTile] else l;
      ClearCells(l', cells[1..], target)
  }

  /** Writes `t` to the target cell when the layer has a tile there. */
  function SetTarget(m: TileMap, layer: LayerKind, target: Cell, t: Tile): (r: (TileMap, bool))
    ensures r.1 <==> target in LayerOf(m, layer)
    ensures r.1 ==> r.0 == WithLayer(m, layer, LayerOf(m, layer)[target := t])
    ensures !r.1 ==> r.0 == m
  {
    if target in LayerOf(m, layer) then (WithLayer(m, layer, LayerOf(m, layer)[target := t]), true)
    else (m, false)
  }

  // ----------------------------------------------
  // Placement rules
  // ----------------------------------------------

  /**
   * The rules that turn a placement down, stated over cells rather than as
   * scans: a building may not go over a unit, over an overlapping building,
   * or (when multi-cell) onto a footprint with a cell out of bounds, built
   * on, or under a unit; a unit may not go over a building or blocker.
   */
  ghost predicate PlacementRejected(m: TileMap, layer: LayerKind, target: Cell, def: TileDef,
                                    targetFootprint: seq<Cell>, currentFootprint: seq<Cell>) {
    || (def.kind == Building &&
         (|| HasTile(m, target, UnitsLayer, {Unit})
          || (HasTile(m, target, layer, {Building, Blocker}) &&
              exists c :: c in currentFootprint && c in targetFootprint)
          || (def.multiCell && exists c :: c in targetFootprint && CellBlocked(m, layer, c))))
    || (def.kind == Unit && HasTile(m, target, BuildingsLayer, {Building, Blocker}))
  }

  /**
   * Places `def` at `target` on `layer`. `targetFootprint` is the footprint
   * `def` would cover from `target`; `currentFootprint` is the footprint of
   * whatever building already covers `target`.
   */
  function TryPlaceTileInLayer(m: TileMap, layer: LayerKind, target: Cell, def: TileDef,
                               targetFootprint: seq<Cell>, currentFootprint: seq<Cell>): (r: (TileMap, bool))
    requires InBounds(m, target)
    requires def.kind in {Terrain, Building, Unit}
    requires LayerFor(def.kind) == layer
    ensures r.0.width == m.width && r.0.height == m.height
    ensures forall k :: LayerOf(r.0, k).Keys == LayerOf(m, k).Keys
    ensures forall k :: k != layer ==> LayerOf(r.0, k) == LayerOf(m, k)
    // the rejections, each before anything is written
    ensures def.kind == Building && HasTile(m, target, UnitsLayer, {Unit}) ==> !r.1 && r.0 == m
    ensures def.kind == Building && def.multiCell &&
            (exists i :: 0 <= i < |targetFootprint| && CellBlocked(m, layer, targetFootprint[i])) ==>
              !r.1 && r.0 == m
    ensures def.kind == Unit && HasTile(m, target, BuildingsLayer, {Building, Blocker}) ==> !r.1 && r.0 == m
    ensures PlacementRejected(m, layer, target, def, targetFootprint, currentFootprint) ==> !r.1 && r.0 == m
    // the target lookup, the only check made after blockers may have been written
    ensures !r.1 ==> r.0 == m || (def.kind == Building && def.multiCell && target !in LayerOf(m, layer))
    // success
    ensures r.1 <==> target in LayerOf(m, layer) && !PlacementRejected(m, layer, target, def, targetFootprint, currentFootprint)
    ensures r.1 ==> LayerOf(r.0, layer)[target] == DefTile(def)
    ensures r.1 && def.kind == Building && def.multiCell ==>
              forall c :: c in LayerOf(m, layer) && c in targetFootprint && c != target ==>
                LayerOf(r.0, layer)[c] == BlockerTile(target, def.flags)
    ensures r.1 ==>
              forall c :: c in LayerOf(m, layer) && c != target &&
                          !(def.kind == Building && def.multiCell && c in targetFootprint) ==>
                LayerOf(r.0, layer)[c] == LayerOf(m, layer)[c]
  {
    if def.kind == Building then
      if HasTile(m, target, UnitsLayer, {Unit}) then (m, false)
      else if HasTile(m, target, layer, {Building, Blocker}) && CellsOverlap(currentFootprint, targetFootprint) then
        CellsOverlapIffShared(currentFootprint, targetFootprint);
        (m, false)
      else if def.multiCell && AnyCellBlocked(m, layer, targetFootprint) then (m, false)
      else
        var m' := if def.multiCell
                  then WithLayer(m, layer, MarkBlockers(LayerOf(m, layer), targetFootprint, target, def.flags))
                  else m;
        SetTarget(m', layer, target, DefTile(def))
    else if def.kind == Unit && HasTile(m, target, BuildingsLayer, {Building, Blocker}) then (m, false)
    else SetTarget(m, layer, target, DefTile(def))
  }

  /**
   * Clears the tile at `target` on `layer`. When it is a building or a
   * blocker, every other cell of `currentFootprint` (the footprint covering
   * `target`) is emptied too.
   */
  function TryClearTileFromLayer(m: TileMap, layer: LayerKind, target: Cell,
                                 currentFootprint: seq<Cell>): (r: (TileMap, bool))
    requires InBounds(m, target)
    ensures r.0.width == m.width && r.0.height == m.height
    ensures forall k :: LayerOf(r.0, k).Keys == LayerOf(m, k).Keys
    ensures forall k :: k != layer ==> LayerOf(r.0, k) == LayerOf(m, k)
    ensures r.1 <==> target in LayerOf(m, layer)
    ensures !r.1 ==> r.0 == m
    ensures r.1 ==> LayerOf(r.0, layer)[target] == EmptyTile
    ensures HasTile(m, target, layer, {Building, Blocker}) ==>
              forall c :: c in LayerOf(m, layer) && c in currentFootprint ==> LayerOf(r.0, layer)[c] == EmptyTile
    ensures forall c :: c in LayerOf(m, layer) && c != target &&
                        !(HasTile(m, target, layer, {Building, Blocker}) && c in currentFootprint) ==>
              LayerOf(r.0, layer)[c] == LayerOf(m, layer)[c]
  {
    var m' := if HasTile(m, target, layer, {Building, Blocker})
              then WithLayer(m, layer, ClearCells(LayerOf(m, layer), currentFootprint, target))
              else m;
    SetTarget(m', layer, target, EmptyTile)
  }
}
