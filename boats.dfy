/**
 * The boat (nav/boat.py): a position on a grid, the set of moves it may take from there and the
 * move itself. The boat's bounds are the configured ROWS and COLS, given here as the constants
 * `rows` and `cols`; the grid it sails on is expected to have those dimensions.
 *
 * What a boat may do is stated over the grid's chart, the set of its navigable positions, which
 * the boat keeps as a ghost snapshot: nothing a boat or a navigator does changes the grid.
 */
module Boats {
  import opened Common
  import opened Cells
  import opened GridStore

  /** The boat may enter (nx, ny): inside the configured bounds, and navigable on the chart. */
  predicate OpenIn(chart: set<Pos>, rows: int, cols: int, nx: int, ny: int)
  {
    0 <= nx < rows && 0 <= ny < cols && (nx, ny) in chart
  }

  /** The eight-neighbourhood moves from (x, y) that lead to an open position. */
  function MovesFrom(chart: set<Pos>, rows: int, cols: int, x: int, y: int): (r: set<Delta>)
    ensures forall d :: d in r <==> IsDelta(d.0, d.1) && OpenIn(chart, rows, cols, x + d.0, y + d.1)
  {
    set dx, dy | -1 <= dx <= 1 && -1 <= dy <= 1 && !(dx == 0 && dy == 0) && OpenIn(chart, rows, cols, x + dx, y + dy) :: (dx, dy)
  }

  /** The available moves are among the eight neighbourhood moves, so there are at most eight. */
  lemma MovesBounded(chart: set<Pos>, rows: int, cols: int, x: int, y: int)
    ensures MovesFrom(chart, rows, cols, x, y) <= Deltas8
    ensures |MovesFrom(chart, rows, cols, x, y)| <= 8
  {
    var r := MovesFrom(chart, rows, cols, x, y);
    forall d | d in r
      ensures d in Deltas8
    {
      var (dx, dy) := d;
      assert IsDelta(dx, dy);
    }
    SubsetCard(r, Deltas8);
  }

  /** A set with the membership of `MovesFrom` is `MovesFrom`. */
  lemma MovesFromExt(chart: set<Pos>, rows: int, cols: int, x: int, y: int, s: set<Delta>)
    requires forall d :: d in s <==> IsDelta(d.0, d.1) && OpenIn(chart, rows, cols, x + d.0, y + d.1)
    ensures s == MovesFrom(chart, rows, cols, x, y)
  {
  }

  /** Every available move leads inside the configured bounds, so a boat that takes one stays in them. */
  lemma MovesStayInBounds(chart: set<Pos>, rows: int, cols: int, x: int, y: int, d: Delta)
    requires d in MovesFrom(chart, rows, cols, x, y)
    ensures 0 <= x + d.0 < rows && 0 <= y + d.1 < cols && (x + d.0, y + d.1) in chart
  {
  }

  /** A move the as-written check `0 <= nx <= ROWS` lets through although it lies one row past the grid. */
  predicate BrokenMove(rows: int, cols: int, x: int, y: int, dx: int, dy: int)
  {
    IsDelta(dx, dy) && 0 <= x + dx == rows && 0 <= y + dy < cols
  }

  class Boat {
    var x: int
    var y: int
    const grid: Grid
    const rows: int
    const cols: int
    /** The navigable positions of the grid when the boat was put on it. */
    ghost const chart: set<Pos>

    /** `Boat(grid, xy)`: no check on the grid or on the starting position. */
    constructor (grid: Grid, rows: int, cols: int, start: Pos)
      ensures x == start.0 && y == start.1
      ensures this.grid == grid && this.rows == rows && this.cols == cols
      ensures grid.Safe() && grid.BoolFlags() && grid.rows == rows && grid.cols == cols ==> Valid()
    {
      x, y := start.0, start.1;
      this.grid := grid;
      this.rows := rows;
      this.cols := cols;
      chart := if grid.Safe() && grid.Owned() then grid.Chart() else {};
    }

    /**
     * No access to the grid raises (every position is in the table and every cell has a bool
     * flag), and `chart` is still a chart of the grid.
     */
    ghost predicate Sound()
      reads grid, grid.Repr
    {
      grid.Safe() && grid.BoolFlags() && grid.Charts(chart)
    }

    /** `Sound`, and the grid has the configured dimensions. */
    ghost predicate Valid()
      reads grid, grid.Repr
    {
      Sound() && grid.rows == rows && grid.cols == cols
    }

    /** `get_availability` with its bounds check corrected to `0 <= nx < ROWS`. */
    method GetAvailability() returns (moves: set<Delta>)
      requires Valid()
      ensures moves == MovesFrom(chart, rows, cols, x, y)
    {
      moves := {};
      var dx := -1;
      while dx <= 1
        invariant -1 <= dx <= 2
        invariant forall d :: d in moves <==> IsDelta(d.0, d.1) && Before(d.0, d.1, dx, -1) && OpenIn(chart, rows, cols, x + d.0, y + d.1)
      {
        var dy := -1;
        while dy <= 1
          invariant -1 <= dy <= 2
          invariant forall d :: d in moves <==> IsDelta(d.0, d.1) && Before(d.0, d.1, dx, dy) && OpenIn(chart, rows, cols, x + d.0, y + d.1)
        {
          if !(dx == 0 && dy == 0) {
            var nx, ny := x + dx, y + dy;
            if 0 <= nx < rows && 0 <= ny < cols {
              var cell := grid.GetCell(nx, ny);
              var flag := cell.value.Get("navigable");
              assert Truthy(flag.value) == grid.IsNavigable(nx, ny);
              if Truthy(flag.value) {
                moves := moves + {(dx, dy)};
              }
            }
          }
          dy := dy + 1;
        }
        dx := dx + 1;
      }
      MovesFromExt(chart, rows, cols, x, y, moves);
    }

    /**
     * `get_availability` as written: the check `0 <= nx <= ROWS` lets nx == ROWS through, the grid
     * lookup then returns None, and `.get` on it raises AttributeError.
     */
    method GetAvailabilityAsWritten() returns (r: Result<set<Delta>>)
      requires Valid()
      ensures r.Err? <==> exists dx, dy :: BrokenMove(rows, cols, x, y, dx, dy)
      ensures r.Err? ==> r.error == AttributeError
      ensures r.Ok? ==> r.value == MovesFrom(chart, rows, cols, x, y)
      ensures 0 <= x == rows - 1 && 0 <= y < cols ==> r.Err?
    {
      var moves: set<Delta> := {};
      var dx := -1;
      while dx <= 1
        invariant -1 <= dx <= 2
        invariant forall d :: d in moves <==> IsDelta(d.0, d.1) && Before(d.0, d.1, dx, -1) && OpenIn(chart, rows, cols, x + d.0, y + d.1)
        invariant forall a, b :: Before(a, b, dx, -1) ==> !BrokenMove(rows, cols, x, y, a, b)
      {
        var dy := -1;
        while dy <= 1
          invariant -1 <= dy <= 2
          invariant forall d :: d in moves <==> IsDelta(d.0, d.1) && Before(d.0, d.1, dx, dy) && OpenIn(chart, rows, cols, x + d.0, y + d.1)
          invariant forall a, b :: Before(a, b, dx, dy) ==> !BrokenMove(rows, cols, x, y, a, b)
        {
          if !(dx == 0 && dy == 0) {
            var nx, ny := x + dx, y + dy;
            if 0 <= nx <= rows && 0 <= ny < cols {
              var cell := grid.GetCell(nx, ny);
              if cell.None? {
                assert BrokenMove(rows, cols, x, y, dx, dy);
                return Err(AttributeError);
              }
              assert nx < rows;
              var flag := cell.value.Get("navigable");
              assert Truthy(flag.value) == grid.IsNavigable(nx, ny);
              if Truthy(flag.value) {
                moves := moves + {(dx, dy)};
              }
            }
          }
          assert !BrokenMove(rows, cols, x, y, dx, dy);
          dy := dy + 1;
        }
        dx := dx + 1;
      }
      assert !BrokenMove(rows, cols, x, y, 1, 0);
      MovesFromExt(chart, rows, cols, x, y, moves);
      return Ok(moves);
    }

    /** `get_neighbors`: how many moves are available. */
    method GetNeighbors() returns (n: nat)
      requires Valid()
      ensures n == |MovesFrom(chart, rows, cols, x, y)| && n <= 8
    {
      var moves := GetAvailability();
      MovesBounded(chart, rows, cols, x, y);
      n := |moves|;
    }

    /** `get_neighbors` as written: the size of the as-written scan, raising wherever that scan raises. */
    method GetNeighborsAsWritten() returns (r: Result<nat>)
      requires Valid()
      ensures r.Err? <==> exists dx, dy :: BrokenMove(rows, cols, x, y, dx, dy)
      ensures r.Err? ==> r.error == AttributeError
      ensures r.Ok? ==> r.value == |MovesFrom(chart, rows, cols, x, y)| && r.value <= 8
      ensures 0 <= x == rows - 1 && 0 <= y < cols ==> r.Err?
    {
      var moves := GetAvailabilityAsWritten();
      if moves.Err? {
        return Err(moves.error);
      }
      MovesBounded(chart, rows, cols, x, y);
      return Ok(|moves.value|);
    }

    /**
     * `move`: step by (dx, dy) when the target is inside the configured bounds and its cell is
     * truthy, and report whether the boat moved.
     */
    method Move(dx: int, dy: int) returns (moved: bool)
      requires Sound()
      modifies this
      ensures moved <==> OpenIn(chart, rows, cols, old(x) + dx, old(y) + dy)
      ensures moved ==> x == old(x) + dx && y == old(y) + dy
      ensures !moved ==> x == old(x) && y == old(y)
    {
      var nx, ny := x + dx, y + dy;
      if 0 <= nx < rows && 0 <= ny < cols {
        var cell := grid.GetCell(nx, ny);
        if cell.Some? {
          var truth := cell.value.Bool();
          assert truth.value == grid.IsNavigable(nx, ny);
          if truth.value {
            x, y := nx, ny;
            return true;
          }
        } else {
          assert !grid.IsNavigable(nx, ny);
        }
      }
      return false;
    }
  }
}
