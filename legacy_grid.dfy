/**
 * The early grid (grid.py): a table of plain values, zero-initialised, addressed by (x, y) and
 * stored row-major as grid[y][x].
 *
 * The table has `rows` lists of `cols` cells, yet the bounds check lets x range over rows and y
 * over cols; on a non-square grid some in-bounds positions fall outside the table (an IndexError
 * in Python). Reads and writes therefore require `SafeAt`, and the two lemmas at the end say
 * exactly when every position is safe.
 */
module LegacyGrid {
  import opened Common

  /** The default dimensions of `Grid()`. */
  const DefaultRows: int := 20
  const DefaultCols: int := 20

  /** The length of `range(n)` and of `[0] * n`: zero for a negative n. */
  function Width(n: int): nat
  {
    if n < 0 then 0 else n
  }

  class Grid {
    const rows: int
    const cols: int
    /** `self.grid`, indexed [y, x]; its rows are never replaced, only its cells. */
    const grid: array2<Value>

    /** The table has Width(rows) rows of Width(cols) cells, as the constructor builds it. */
    ghost predicate Valid()
    {
      grid.Length0 == Width(rows) && grid.Length1 == Width(cols)
    }

    /** `Grid(rows, cols)`: every cell is 0. */
    constructor (rows: int, cols: int)
      ensures this.rows == rows && this.cols == cols && Valid() && fresh(grid)
      ensures forall i, j :: 0 <= i < grid.Length0 && 0 <= j < grid.Length1 ==> grid[i, j] == VInt(0)
    {
      this.rows := rows;
      this.cols := cols;
      grid := new Value[Width(rows), Width(cols)]((_, _) => VInt(0));
    }

    /**
     * The bounds check of `set_cell` and `get_cell`. On a square grid a position it accepts lies
     * inside the table.
     */
    function InBounds(x: int, y: int): (r: bool)
      ensures r && Valid() && rows == cols ==> y < grid.Length0 && x < grid.Length1
    {
      0 <= x < rows && 0 <= y < cols
    }

    /** Reading or writing (x, y) does not raise: an in-bounds position lies inside the table. */
    predicate SafeAt(x: int, y: int)
    {
      InBounds(x, y) ==> y < grid.Length0 && x < grid.Length1
    }

    ghost predicate Safe()
    {
      forall x, y :: SafeAt(x, y)
    }

    /** `get_cell` (also `grid[x, y]`): the stored value in bounds, None outside. */
    function GetCell(x: int, y: int): (r: Option<Value>)
      reads grid
      requires SafeAt(x, y)
      ensures r.Some? <==> InBounds(x, y)
      ensures r.Some? ==> r.value == grid[y, x]
    {
      if InBounds(x, y) then Some(grid[y, x]) else None
    }

    /**
     * `set_cell` (also `grid[x, y] = value`): in bounds the one cell changes and reads back as
     * `value`; out of bounds nothing happens.
     */
    method SetCell(x: int, y: int, value: Value)
      requires SafeAt(x, y)
      modifies grid
      ensures forall i, j :: 0 <= i < grid.Length0 && 0 <= j < grid.Length1 ==>
        grid[i, j] == if InBounds(x, y) && i == y && j == x then value else old(grid[i, j])
      ensures InBounds(x, y) ==> GetCell(x, y) == Some(value)
      ensures !InBounds(x, y) ==> GetCell(x, y) == None
      ensures forall a, b :: SafeAt(a, b) && (a, b) != (x, y) ==> GetCell(a, b) == old(GetCell(a, b))
    {
      if InBounds(x, y) {
        grid[y, x] := value;
      }
    }

    /** A square grid (or an empty one) never indexes outside its table. */
    lemma SquareIsSafe()
      requires Valid() && (rows == cols || rows <= 0 || cols <= 0)
      ensures Safe()
    {
    }

    /** A non-empty non-square grid has an in-bounds position outside its table. */
    lemma NonSquareIsUnsafe()
      requires Valid() && rows > 0 && cols > 0 && rows != cols
      ensures !Safe()
    {
      if rows > cols {
        assert !SafeAt(cols, 0);
      } else {
        assert !SafeAt(0, rows);
      }
    }
  }

  /** `Grid()`: a 20 x 20 grid of zeros, square and so safe everywhere. */
  method NewDefault() returns (g: Grid)
    ensures fresh(g.grid) && g.rows == DefaultRows && g.cols == DefaultCols
    ensures g.Valid() && g.Safe()
    ensures forall x, y :: g.InBounds(x, y) ==> g.GetCell(x, y) == Some(VInt(0))
  {
    g := new Grid(DefaultRows, DefaultCols);
    g.SquareIsSafe();
  }
}
