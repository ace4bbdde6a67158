/** Properties of the fixed-step scheduler and of the neighbourhood queries. */
module SimProps {
  import opened Wrappers
  import opened Coords
  import opened BuildingKinds
  import opened Buildings
  import SimWorld
  import opened Sim

  // ----------------------------------------------
  // Scheduler
  // ----------------------------------------------

  function Sum(deltas: seq<real>): real {
    if deltas == [] then 0.0 else deltas[0] + Sum(deltas[1..])
  }

  /** With a positive frequency, a tick that updates is always followed by one that does not. */
  lemma NoConsecutiveUpdates(t: UpdateTimer, d1: real, d2: real)
    requires t.frequencySecs > 0.0
    ensures Tick(t, d1).1 == ShouldUpdate ==> Tick(Tick(t, d1).0, d2).1 == DoNotUpdate
  {
  }

  /**
   * Over n ticks there are at most (n + 1) / 2 updates, and at most n / 2
   * when the clock has not yet reached the frequency.
   */
  lemma {:induction false} UpdatesAtMostEveryOtherTick(t: UpdateTimer, deltas: seq<real>)
    requires t.frequencySecs > 0.0
    decreases |deltas|
    ensures TickAll(t, deltas).1 <= (|deltas| + 1) / 2
    ensures t.timeSinceLastUpdateSecs < t.frequencySecs ==> TickAll(t, deltas).1 <= |deltas| / 2
  {
    if deltas != [] {
      var (t', res) := Tick(t, deltas[0]);
      UpdatesAtMostEveryOtherTick(t', deltas[1..]);
    }
  }

  /**
   * With frame deltas in [0, maxDelta], the accumulated time stays in
   * [0, frequency + maxDelta): it never runs away.
   */
  lemma {:induction false} ClockStaysBounded(t: UpdateTimer, deltas: seq<real>, maxDelta: real)
    requires forall i :: 0 <= i < |deltas| ==> 0.0 <= deltas[i] <= maxDelta
    requires 0.0 <= t.timeSinceLastUpdateSecs < t.frequencySecs + maxDelta
    decreases |deltas|
    ensures 0.0 <= TickAll(t, deltas).0.timeSinceLastUpdateSecs < t.frequencySecs + maxDelta
  {
    if deltas != [] {
      var (t', res) := Tick(t, deltas[0]);
      ClockStaysBounded(t', deltas[1..], maxDelta);
    }
  }

  /** Without an update, every delta is accumulated. */
  lemma {:induction false} NoUpdateAccumulates(t: UpdateTimer, deltas: seq<real>)
    decreases |deltas|
    ensures TickAll(t, deltas).1 == 0 ==>
              TickAll(t, deltas).0.timeSinceLastUpdateSecs == t.timeSinceLastUpdateSecs + Sum(deltas)
  {
    if deltas != [] {
      var (t', res) := Tick(t, deltas[0]);
      NoUpdateAccumulates(t', deltas[1..]);
    }
  }

  /**
   * No update is skipped: once the time already accumulated reaches the
   * frequency, the next tick updates.
   */
  lemma {:induction false} UpdateOnceFrequencyReached(t: UpdateTimer, deltas: seq<real>, d: real)
    decreases |deltas|
    ensures t.timeSinceLastUpdateSecs + Sum(deltas) >= t.frequencySecs ==> TickAll(t, deltas + [d]).1 >= 1
  {
    if deltas == [] {
      assert deltas + [d] == [d];
    } else {
      var (t', res) := Tick(t, deltas[0]);
      assert (deltas + [d])[0] == deltas[0];
      assert (deltas + [d])[1..] == deltas[1..] + [d];
      UpdateOnceFrequencyReached(t', deltas[1..], d);
    }
  }

  /**
   * At the default frequency, three 0.2 s frames run no world update; the
   * fourth frame runs one with the 0.6 s accumulated so far (its own 0.2 s is
   * dropped) and resets the clock.
   */
  lemma SchedulerScenario()
    ensures var s0 := NewSimulation();
            var (s1, u1) := Update(s0, 0.2);
            var (s2, u2) := Update(s1, 0.2);
            var (s3, u3) := Update(s2, 0.2);
            var (s4, u4) := Update(s3, 0.2);
            && u1.None? && u2.None? && u3.None?
            && s3.updateTimer.timeSinceLastUpdateSecs == 0.6
            && u4 == Some(0.6)
            && s4.updateTimer.timeSinceLastUpdateSecs == 0.0
  {
  }

  // ----------------------------------------------
  // Queries
  // ----------------------------------------------

  function Abs(x: int): nat {
    if x < 0 then -x else x
  }

  /** A cell is within `radius` cells (per axis) of some cell of `startCells`. */
  ghost predicate WithinRadius(startCells: CellRange, radius: int, c: Cell) {
    exists c0 :: InRange(startCells, c0) && Abs(c.x - c0.x) <= radius && Abs(c.y - c0.y) <= radius
  }

  function Clamp(v: int, lo: int, hi: int): (r: int)
    requires lo <= hi
    ensures lo <= r <= hi
    ensures v < lo ==> r == lo
    ensures v > hi ==> r == hi
    ensures lo <= v <= hi ==> r == v
  {
    if v < lo then lo else if v > hi then hi else v
  }

  /** The search window is exactly the set of cells within the radius of the start range. */
  lemma SearchRangeIsNeighbourhood(startCells: CellRange, radius: int, c: Cell)
    requires IsValidRange(startCells) && radius > 0
    ensures InRange(CalcSearchRange(startCells, radius), c) <==> WithinRadius(startCells, radius, c)
  {
    if InRange(CalcSearchRange(startCells, radius), c) {
      var c0 := Cell(Clamp(c.x, startCells.start.x, startCells.end.x),
                     Clamp(c.y, startCells.start.y, startCells.end.y));
      assert InRange(startCells, c0) && Abs(c.x - c0.x) <= radius && Abs(c.y - c0.y) <= radius;
    }
  }

  /** `IsNearBuilding` holds exactly when some cell of the search window matches. */
  lemma NearIffMatchInWindow(tiles: ObjectTiles, startCells: CellRange, kind: BuildingKind, radius: int)
    requires IsValidRange(startCells) && radius > 0
    ensures IsNearBuilding(tiles, startCells, kind, radius) <==>
              exists c :: InRange(CalcSearchRange(startCells, radius), c) && IsMatch(tiles, c, kind)
  {
    var cells := RangeCells(CalcSearchRange(startCells, radius));
    if IsNearBuilding(tiles, startCells, kind, radius) {
      var i :| 0 <= i < |cells| && IsMatch(tiles, cells[i], kind);
      RangeCellsMembership(CalcSearchRange(startCells, radius), cells[i]);
    }
    if c :| InRange(CalcSearchRange(startCells, radius), c) && IsMatch(tiles, c, kind) {
      RangeCellsMembership(CalcSearchRange(startCells, radius), c);
      var i :| 0 <= i < |cells| && cells[i] == c;
    }
  }

  /**
   * Tiles and registry agree: every building handle on the objects layer
   * names an occupied entry holding a building of the handle's kind.
   */
  ghost predicate Consistent(w: SimWorld.World, tiles: ObjectTiles) {
    && SimWorld.Valid(w)
    && forall c :: c in tiles && IsBuildingHandle(tiles[c]) ==>
         var found := SimWorld.FindBuildingForTile(w, tiles[c]);
         found.Some? && Some(found.value.kind) == KindFromBits(tiles[c].kindBits)
  }

  /**
   * On consistent state the two queries agree, and the building found is of
   * the requested kind.
   */
  lemma FindAgreesWithNear(w: SimWorld.World, tiles: ObjectTiles, startCells: CellRange,
                           kind: BuildingKind, radius: int)
    requires Consistent(w, tiles)
    requires IsValidRange(startCells) && radius > 0
    ensures FindNearestBuilding(w, tiles, startCells, kind, radius).Some? <==> IsNearBuilding(tiles, startCells, kind, radius)
    ensures FindNearestBuilding(w, tiles, startCells, kind, radius).Some? ==>
              FindNearestBuilding(w, tiles, startCells, kind, radius).value.kind == kind
  {
    var cells := RangeCells(CalcSearchRange(startCells, radius));
    var first := FirstMatchFrom(cells, tiles, kind, 0);
    if first.Some? {
      var c := cells[first.value];
      assert IsMatch(tiles, c, kind);
      assert IsBuildingHandle(tiles[c]);
    }
  }

  /**
   * A building added to the registry, whose handle is put on a tile inside
   * the search window, is then near.
   */
  lemma AddedBuildingIsNear(w: SimWorld.World, tiles: ObjectTiles, b: Building, c: Cell,
                            startCells: CellRange, radius: int)
    requires SimWorld.Valid(w) && WellFormed(b)
    requires IsValidRange(startCells) && radius > 0
    requires WithinRadius(startCells, radius, c)
    ensures IsNearBuilding(tiles[c := SimWorld.AddBuilding(w, b).1], startCells, b.kind, radius)
  {
    var h := SimWorld.AddBuilding(w, b).1;
    KindBitsRoundTrip(b.kind);
    assert IsMatch(tiles[c := h], c, b.kind);
    SearchRangeIsNeighbourhood(startCells, radius, c);
    NearIffMatchInWindow(tiles[c := h], startCells, b.kind, radius);
  }
}
