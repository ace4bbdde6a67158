/**
 * Grid cells and inclusive cell ranges.
 *
 * The cell-range iterator lives in utils/coords.rs, which is not part of this
 * model: a range is taken to include both corners and to be visited row by
 * row (y outer, x inner).
 */
module Coords {

  datatype Cell = Cell(x: int, y: int)

  datatype CellRange = CellRange(start: Cell, end: Cell)

  /** A range is valid when its start corner is not past its end corner. */
  predicate IsValidRange(r: CellRange) {
    r.start.x <= r.end.x && r.start.y <= r.end.y
  }

  predicate InRange(r: CellRange, c: Cell) {
    r.start.x <= c.x <= r.end.x && r.start.y <= c.y <= r.end.y
  }

  /** The cells (x0, y), (x0 + 1, y), ..., (x1, y). */
  function RowCells(y: int, x0: int, x1: int): (row: seq<Cell>)
    decreases x1 - x0
    ensures x0 <= x1 ==> |row| == x1 - x0 + 1
    ensures x0 > x1 ==> row == []
    ensures forall i :: 0 <= i < |row| ==> row[i] == Cell(x0 + i, y)
  {
    if x0 > x1 then [] else [Cell(x0, y)] + RowCells(y, x0 + 1, x1)
  }

  /** The rows of `r` from row `y` down to `r.end.y`, in iteration order. */
  function RowsFrom(r: CellRange, y: int): (cells: seq<Cell>)
    decreases r.end.y - y
  {
    if y > r.end.y then [] else RowCells(y, r.start.x, r.end.x) + RowsFrom(r, y + 1)
  }

  /** Every cell of `r`, in the order the range iterator yields them. */
  function RangeCells(r: CellRange): seq<Cell> {
    RowsFrom(r, r.start.y)
  }

  lemma {:induction false} RowsFromMembership(r: CellRange, y: int, c: Cell)
    requires r.start.y <= y
    decreases r.end.y - y
    ensures c in RowsFrom(r, y) <==> (InRange(r, c) && y <= c.y)
  {
    if y <= r.end.y {
      var row := RowCells(y, r.start.x, r.end.x);
      var rest := RowsFrom(r, y + 1);
      assert RowsFrom(r, y) == row + rest;
      RowsFromMembership(r, y + 1, c);
      assert c in row <==> (c.y == y && r.start.x <= c.x <= r.end.x) by {
        if c in row {
          var i :| 0 <= i < |row| && row[i] == c;
        }
        if c.y == y && r.start.x <= c.x <= r.end.x {
          assert row[c.x - r.start.x] == c;
        }
      }
    }
  }

  /** The iteration visits exactly the cells inside the range. */
  lemma RangeCellsMembership(r: CellRange, c: Cell)
    ensures c in RangeCells(r) <==> InRange(r, c)
  {
    RowsFromMembership(r, r.start.y, c);
  }
}
