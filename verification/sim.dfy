/**
 * The fixed-step scheduler and the neighbourhood queries of the simulation
 * (sim/mod.rs). Time is an exact `real` rather than an `f32`.
 */
module Sim {
  import opened Wrappers
  import opened Coords
  import opened BuildingKinds
  import opened Buildings
  import SimWorld

  // ----------------------------------------------
  // UpdateTimer
  // ----------------------------------------------

  const DEFAULT_SIM_UPDATE_FREQUENCY_SECS: real := 0.5

  datatype UpdateTimer = UpdateTimer(frequencySecs: real, timeSinceLastUpdateSecs: real)

  datatype UpdateTimerResult = DoNotUpdate | ShouldUpdate

  function NewTimer(frequencySecs: real): (t: UpdateTimer)
    ensures t.frequencySecs == frequencySecs
    ensures t.timeSinceLastUpdateSecs == 0.0
  {
    UpdateTimer(frequencySecs, 0.0)
  }

  /**
   * One tick. Once the accumulated time has reached the frequency, the tick
   * resets the clock and asks for an update, dropping this call's delta;
   * otherwise it only accumulates the delta.
   */
  function Tick(t: UpdateTimer, deltaSecs: real): (r: (UpdateTimer, UpdateTimerResult))
    ensures r.0.frequencySecs == t.frequencySecs
    ensures r.1 == ShouldUpdate <==> t.timeSinceLastUpdateSecs >= t.frequencySecs
    ensures r.1 == ShouldUpdate ==> r.0.timeSinceLastUpdateSecs == 0.0
    ensures r.1 == DoNotUpdate ==> r.0.timeSinceLastUpdateSecs == t.timeSinceLastUpdateSecs + deltaSecs
  {
    if t.timeSinceLastUpdateSecs >= t.frequencySecs then
      (t.(timeSinceLastUpdateSecs := 0.0), ShouldUpdate)
    else
      (t.(timeSinceLastUpdateSecs := t.timeSinceLastUpdateSecs + deltaSecs), DoNotUpdate)
  }

  /** Feeds a series of frame deltas to the timer; returns the timer and how many ticks asked for an update. */
  function TickAll(t: UpdateTimer, deltas: seq<real>): (r: (UpdateTimer, nat))
    ensures r.0.frequencySecs == t.frequencySecs
    ensures r.1 <= |deltas|
    decreases |deltas|
  {
    if deltas == [] then (t, 0)
    else
      var (t', res) := Tick(t, deltas[0]);
      var (t'', n) := TickAll(t', deltas[1..]);
      (t'', n + (if res == ShouldUpdate then 1 else 0))
  }

  // ----------------------------------------------
  // Simulation
  // ----------------------------------------------

  /** The simulation's scheduling state; its random generator is left out. */
  datatype Simulation = Simulation(updateTimer: UpdateTimer)

  function NewSimulation(): (s: Simulation)
    ensures s.updateTimer.frequencySecs == 0.5
    ensures s.updateTimer.timeSinceLastUpdateSecs == 0.0
  {
    Simulation(NewTimer(DEFAULT_SIM_UPDATE_FREQUENCY_SECS))
  }

  /**
   * One frame. Returns the new state and, when this frame runs a world
   * update, the delta handed to it: the accumulated time read before the
   * tick. At most one world update runs per frame. Frame durations are
   * never negative.
   */
  function Update(s: Simulation, frameDeltaSecs: real): (r: (Simulation, Option<real>))
    requires frameDeltaSecs >= 0.0
    ensures r.1.Some? <==> s.updateTimer.timeSinceLastUpdateSecs >= s.updateTimer.frequencySecs
    ensures r.1.Some? ==> r.1.value == s.updateTimer.timeSinceLastUpdateSecs
    ensures r.1.Some? ==> r.0.updateTimer.timeSinceLastUpdateSecs == 0.0
    ensures r.1.None? ==> r.0.updateTimer.timeSinceLastUpdateSecs == s.updateTimer.timeSinceLastUpdateSecs + frameDeltaSecs
  {
    var worldDeltaSecs := s.updateTimer.timeSinceLastUpdateSecs;
    var (timer, result) := Tick(s.updateTimer, frameDeltaSecs);
    (Simulation(timer), if result == ShouldUpdate then Some(worldDeltaSecs) else None)
  }

  // ----------------------------------------------
  // Query
  // ----------------------------------------------

  /**
   * The part of the tile map the queries read: the game-state handle of the
   * building tile (if any) on the objects layer of each cell.
   */
  type ObjectTiles = map<Cell, GameStateHandle>

  /** The search window: the start range grown by `radius` cells on every side. */
  function CalcSearchRange(startCells: CellRange, radius: int): (r: CellRange)
    requires IsValidRange(startCells) && radius > 0
    ensures IsValidRange(r)
    ensures forall c :: InRange(startCells, c) ==> InRange(r, c)
  {
    CellRange(Cell(startCells.start.x - radius, startCells.start.y - radius),
              Cell(startCells.end.x + radius, startCells.end.y + radius))
  }

  /** A cell holding a building tile with a valid handle whose decoded kind is `kind`. */
  predicate IsMatch(tiles: ObjectTiles, c: Cell, kind: BuildingKind) {
    c in tiles && IsValidHandle(tiles[c]) && KindFromBits(tiles[c].kindBits) == Some(kind)
  }

  /** First position at or after `from` whose cell matches. */
  function FirstMatchFrom(cells: seq<Cell>, tiles: ObjectTiles, kind: BuildingKind, from: nat): (r: Option<nat>)
    requires from <= |cells|
    decreases |cells| - from
    ensures r.Some? ==> from <= r.value < |cells| && IsMatch(tiles, cells[r.value], kind)
    ensures r.Some? ==> forall j :: from <= j < r.value ==> !IsMatch(tiles, cells[j], kind)
    ensures r.None? ==> forall j :: from <= j < |cells| ==> !IsMatch(tiles, cells[j], kind)
  {
    if from == |cells| then None
    else if IsMatch(tiles, cells[from], kind) then Some(from)
    else FirstMatchFrom(cells, tiles, kind, from + 1)
  }

  /** Is a building of `kind` within `radius` cells of the start range? */
  function IsNearBuilding(tiles: ObjectTiles, startCells: CellRange, kind: BuildingKind, radius: int): (r: bool)
    requires IsValidRange(startCells) && radius > 0
    ensures r <==> exists i :: 0 <= i < |RangeCells(CalcSearchRange(startCells, radius))|
                           && IsMatch(tiles, RangeCells(CalcSearchRange(startCells, radius))[i], kind)
  {
    FirstMatchFrom(RangeCells(CalcSearchRange(startCells, radius)), tiles, kind, 0).Some?
  }

  /**
   * The building behind the first matching cell in scan order (not the
   * geometrically nearest one), or `None` when no cell matches. A first
   * match whose handle names a vacant entry also gives `None`: the scan
   * does not go on.
   */
  function FindNearestBuilding(w: SimWorld.World, tiles: ObjectTiles, startCells: CellRange,
                               kind: BuildingKind, radius: int): (r: Option<Building>)
    requires SimWorld.Valid(w)
    requires IsValidRange(startCells) && radius > 0
    ensures var cells := RangeCells(CalcSearchRange(startCells, radius));
            forall i :: 0 <= i < |cells| && IsMatch(tiles, cells[i], kind)
                        && (forall j :: 0 <= j < i ==> !IsMatch(tiles, cells[j], kind)) ==>
              r == SimWorld.FindBuildingForTile(w, tiles[cells[i]])
    ensures (forall i :: 0 <= i < |RangeCells(CalcSearchRange(startCells, radius))| ==>
               !IsMatch(tiles, RangeCells(CalcSearchRange(startCells, radius))[i], kind)) ==> r.None?
    ensures r.Some? ==> ArchetypeOf(r.value.kind) == ArchetypeOf(kind)
  {
    var cells := RangeCells(CalcSearchRange(startCells, radius));
    match FirstMatchFrom(cells, tiles, kind, 0)
    case None => None
    case Some(i) =>
      assert cells[i] in tiles;
      SimWorld.FindBuildingForTile(w, tiles[cells[i]])
  }
}
