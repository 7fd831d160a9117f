/**
 * Cell attribute records and landmass generation (grid/grid_cells.py).
 *
 * A cell is an open key/value mapping that must hold a "navigable" entry. The landmass map is a
 * rows x cols table of flags (true = land) indexed [x][y], smoothed by a cellular automaton.
 */
module Cells {
  import opened Common

  /** Keys every cell must carry. */
  const Required: set<string> := {"navigable"}

  class GridCells {
    var dict: map<string, Value>
    /** The `name` attribute mirrored at construction; None when the keywords had no "name". */
    const name: Option<Value>

    ghost predicate Valid()
      reads this
    {
      Required <= dict.Keys
    }

    constructor (kwds: map<string, Value>)
      requires Required <= kwds.Keys
      ensures dict == kwds && Valid()
      ensures name == if "name" in kwds then Some(kwds["name"]) else None
    {
      dict := kwds;
      name := if "name" in kwds then Some(kwds["name"]) else None;
    }

    /** `GridCells(**kwds)`: fails with a ValueError naming a missing required key. */
    static method Create(kwds: map<string, Value>) returns (r: Result<GridCells>)
      ensures r.Err? <==> !(Required <= kwds.Keys)
      ensures r.Err? ==> r.error.MissingKey? && r.error.key in Required && r.error.key !in kwds
      ensures r.Ok? ==> fresh(r.value) && r.value.dict == kwds && r.value.Valid()
      ensures r.Ok? ==> r.value.name == if "name" in kwds then Some(kwds["name"]) else None
    {
      var missing := FindMissing(Required, kwds);
      if missing.Some? {
        return Err(MissingKey(missing.value));
      }
      var c := new GridCells(kwds);
      return Ok(c);
    }

    /** The truthiness of the stored "navigable" value, as `if cell.get("navigable")` sees it. */
    predicate Navigable()
      reads this
    {
      "navigable" in dict && Truthy(dict["navigable"])
    }

    /** `__bool__`: Python demands a bool back, so any other stored flag raises TypeError. */
    function Bool(): (r: Result<bool>)
      reads this
      requires Valid()
      ensures r.Ok? <==> dict["navigable"].VBool?
      ensures r.Ok? ==> r.value == Navigable()
      ensures r.Err? ==> r.error == TypeError
    {
      match dict["navigable"]
      case VBool(b) => Ok(b)
      case _ => Err(TypeError)
    }

    function Get(key: string): (r: Result<Value>)
      reads this
      ensures r.Ok? <==> key in dict
      ensures r.Ok? ==> r.value == dict[key]
      ensures r.Err? ==> r.error == KeyError(key)
    {
      if key in dict then Ok(dict[key]) else Err(KeyError(key))
    }

    method Set(key: string, value: Value)
      modifies this
      ensures dict == old(dict)[key := value]
      ensures Get(key) == Ok(value) && Contains(key)
      ensures forall k :: k != key ==> Get(k) == old(Get(k))
      ensures old(Valid()) ==> Valid()
    {
      dict := dict[key := value];
    }

    function Contains(item: string): (r: bool)
      reads this
      ensures r <==> Get(item).Ok?
    {
      item in dict
    }

    /** The stored mapping, every key included (extra ones such as "default" and "name" too). */
    function Save(): (r: map<string, Value>)
      reads this
      ensures r.Keys == dict.Keys && forall k :: k in r ==> Get(k) == Ok(r[k])
    {
      dict
    }

    /** Count the land cells among the 8 in-bounds neighbours of (x, y), scanning dx then dy. */
    static method CountLandNeighbours(grid: seq<seq<bool>>, rows: nat, cols: nat, x: int, y: int)
      returns (count: nat)
      requires IsMap(grid, rows, cols)
      ensures count == LandNeighbours(grid, rows, cols, x, y)
      ensures count <= 8
    {
      count := 0;
      var dx := -1;
      while dx <= 1
        invariant -1 <= dx <= 2
        invariant count == BlockLand(grid, rows, cols, x, y, dx)
      {
        var dy := -1;
        while dy <= 1
          invariant -1 <= dy <= 2
          invariant count == BlockLand(grid, rows, cols, x, y, dx) + RowLand(grid, rows, cols, x, y, dx, dy)
        {
          if !(dx == 0 && dy == 0) {
            var nx, ny := x + dx, y + dy;
            if 0 <= nx < rows && 0 <= ny < cols && grid[nx][ny] {
              count := count + 1;
            }
          }
          dy := dy + 1;
        }
        dx := dx + 1;
      }
    }

    /**
     * `generate_landmass_map`, with the random initial map passed in: `iterations` rounds of
     * smoothing, each computed from the previous round's map into a fresh one.
     */
    static method GenerateLandmassMap(rows: nat, cols: nat, iterations: nat, init: seq<seq<bool>>)
      returns (grid: seq<seq<bool>>)
      requires IsMap(init, rows, cols)
      ensures IsMap(grid, rows, cols)
      ensures grid == Smooth(init, rows, cols, iterations)
    {
      grid := init;
      var round := 0;
      while round < iterations
        invariant 0 <= round <= iterations
        invariant grid == Smooth(init, rows, cols, round)
        invariant IsMap(grid, rows, cols)
      {
        var newGrid := SmoothRound(grid, rows, cols);
        grid := newGrid;
        round := round + 1;
      }
    }

    /** One round of `generate_landmass_map`: fill a fresh all-water map cell by cell from `grid`. */
    static method SmoothRound(grid: seq<seq<bool>>, rows: nat, cols: nat) returns (newGrid: seq<seq<bool>>)
      requires IsMap(grid, rows, cols)
      ensures newGrid == Step(grid, rows, cols)
    {
      newGrid := seq(rows, _ => seq(cols, _ => false));
      var i := 0;
      while i < rows
        invariant 0 <= i <= rows
        invariant IsMap(newGrid, rows, cols)
        invariant forall a, b :: 0 <= a < i && 0 <= b < cols ==> newGrid[a][b] == NextCell(grid, rows, cols, a, b)
      {
        var j := 0;
        while j < cols
          invariant 0 <= j <= cols
          invariant IsMap(newGrid, rows, cols)
          invariant forall a, b :: 0 <= a < i && 0 <= b < cols ==> newGrid[a][b] == NextCell(grid, rows, cols, a, b)
          invariant forall b :: 0 <= b < j ==> newGrid[i][b] == NextCell(grid, rows, cols, i, b)
        {
          var landNeighbours := CountLandNeighbours(grid, rows, cols, i, j);
          var cell := if grid[i][j] then landNeighbours >= 4 else landNeighbours >= 5;
          newGrid := newGrid[i := newGrid[i][j := cell]];
          j := j + 1;
        }
        i := i + 1;
      }
      StepEq(grid, newGrid, rows, cols);
    }

    /** `default(row, col, landmass_map)`: a navigable cell exactly where the transposed map is water. */
    static method Default(row: int, col: int, landmassMap: seq<seq<bool>>) returns (c: GridCells)
      requires 0 <= col < |landmassMap| && 0 <= row < |landmassMap[col]|
      ensures fresh(c) && c.Valid() && c.name == None
      ensures c.dict == DefaultDict(landmassMap[col][row])
      ensures c.Navigable() <==> !landmassMap[col][row]
      ensures c.Get("default") == Ok(VBool(true))
    {
      c := new GridCells(DefaultDict(landmassMap[col][row]));
    }
  }

  /** The keywords `default` passes: navigable where there is no land, and default = True. */
  function DefaultDict(land: bool): map<string, Value>
  {
    map["navigable" := VBool(!land), "default" := VBool(true)]
  }

  /** A landmass map of `rows` rows of `cols` flags. */
  predicate IsMap(m: seq<seq<bool>>, rows: nat, cols: nat)
  {
    |m| == rows && forall i :: 0 <= i < rows ==> |m[i]| == cols
  }

  /** 1 when the neighbour of (x, y) at offset (dx, dy) is not (x, y) itself, is in bounds and is land. */
  function LandAt(m: seq<seq<bool>>, rows: nat, cols: nat, x: int, y: int, dx: int, dy: int): nat
    requires IsMap(m, rows, cols)
  {
    if !(dx == 0 && dy == 0) && 0 <= x + dx < rows && 0 <= y + dy < cols && m[x + dx][y + dy] then 1 else 0
  }

  /** Land at the offsets (dx, b) with -1 <= b < dyEnd. */
  function RowLand(m: seq<seq<bool>>, rows: nat, cols: nat, x: int, y: int, dx: int, dyEnd: int): nat
    requires IsMap(m, rows, cols)
  {
    (if -1 < dyEnd then LandAt(m, rows, cols, x, y, dx, -1) else 0)
    + (if 0 < dyEnd then LandAt(m, rows, cols, x, y, dx, 0) else 0)
    + (if 1 < dyEnd then LandAt(m, rows, cols, x, y, dx, 1) else 0)
  }

  /** Land at the offsets (a, b) with -1 <= a < dxEnd and -1 <= b <= 1. */
  function BlockLand(m: seq<seq<bool>>, rows: nat, cols: nat, x: int, y: int, dxEnd: int): nat
    requires IsMap(m, rows, cols)
  {
    (if -1 < dxEnd then RowLand(m, rows, cols, x, y, -1, 2) else 0)
    + (if 0 < dxEnd then RowLand(m, rows, cols, x, y, 0, 2) else 0)
    + (if 1 < dxEnd then RowLand(m, rows, cols, x, y, 1, 2) else 0)
  }

  /** The number of land cells among the in-bounds 8-neighbours of (x, y). */
  function LandNeighbours(m: seq<seq<bool>>, rows: nat, cols: nat, x: int, y: int): (n: nat)
    requires IsMap(m, rows, cols)
    ensures n <= 8
  {
    BlockLand(m, rows, cols, x, y, 2)
  }

  /** The smoothing rule for one cell. */
  predicate NextCell(m: seq<seq<bool>>, rows: nat, cols: nat, i: int, j: int)
    requires IsMap(m, rows, cols) && 0 <= i < rows && 0 <= j < cols
  {
    if m[i][j] then LandNeighbours(m, rows, cols, i, j) >= 4 else LandNeighbours(m, rows, cols, i, j) >= 5
  }

  /** One smoothing round, every cell computed from the snapshot `m`. */
  function Step(m: seq<seq<bool>>, rows: nat, cols: nat): (r: seq<seq<bool>>)
    requires IsMap(m, rows, cols)
    ensures IsMap(r, rows, cols)
    ensures forall i, j :: 0 <= i < rows && 0 <= j < cols && m[i][j] ==>
      (r[i][j] <==> LandNeighbours(m, rows, cols, i, j) >= 4)
    ensures forall i, j :: 0 <= i < rows && 0 <= j < cols && !m[i][j] ==>
      (r[i][j] <==> LandNeighbours(m, rows, cols, i, j) >= 5)
  {
    seq(rows, i requires 0 <= i < rows => seq(cols, j requires 0 <= j < cols => NextCell(m, rows, cols, i, j)))
  }

  /** `n` smoothing rounds. */
  function Smooth(m: seq<seq<bool>>, rows: nat, cols: nat, n: nat): (r: seq<seq<bool>>)
    requires IsMap(m, rows, cols)
    ensures IsMap(r, rows, cols)
  {
    if n == 0 then m else Step(Smooth(m, rows, cols, n - 1), rows, cols)
  }

  lemma StepEq(m: seq<seq<bool>>, r: seq<seq<bool>>, rows: nat, cols: nat)
    requires IsMap(m, rows, cols) && IsMap(r, rows, cols)
    requires forall a, b :: 0 <= a < rows && 0 <= b < cols ==> r[a][b] == NextCell(m, rows, cols, a, b)
    ensures r == Step(m, rows, cols)
  {
    var s := Step(m, rows, cols);
    forall a | 0 <= a < rows
      ensures r[a] == s[a]
    {
    }
  }

  function AllWater(rows: nat, cols: nat): (m: seq<seq<bool>>)
    ensures IsMap(m, rows, cols)
  {
    seq(rows, _ => seq(cols, _ => false))
  }

  function AllLand(rows: nat, cols: nat): (m: seq<seq<bool>>)
    ensures IsMap(m, rows, cols)
  {
    seq(rows, _ => seq(cols, _ => true))
  }

  /** An all-water map is a fixed point of smoothing: no cell ever has a land neighbour. */
  lemma {:induction false} AllWaterStaysWater(rows: nat, cols: nat, n: nat)
    ensures Smooth(AllWater(rows, cols), rows, cols, n) == AllWater(rows, cols)
  {
    if n > 0 {
      AllWaterStaysWater(rows, cols, n - 1);
      var w := AllWater(rows, cols);
      forall a, b | 0 <= a < rows && 0 <= b < cols
        ensures w[a][b] == NextCell(w, rows, cols, a, b)
      {
        assert LandNeighbours(w, rows, cols, a, b) == 0;
      }
      StepEq(w, w, rows, cols);
    }
  }

  /** In an all-land map with at least two rows and columns, a corner has 3 land neighbours and turns to water. */
  lemma AllLandCornerErodes(rows: nat, cols: nat, i: int, j: int)
    requires rows >= 2 && cols >= 2
    requires (i == 0 || i == rows - 1) && (j == 0 || j == cols - 1)
    ensures LandNeighbours(AllLand(rows, cols), rows, cols, i, j) == 3
    ensures !Step(AllLand(rows, cols), rows, cols)[i][j]
  {
  }

  /** Every cell of an all-land map (at least 2 x 2) other than the four corners stays land. */
  lemma AllLandNonCornerStays(rows: nat, cols: nat, i: int, j: int)
    requires rows >= 2 && cols >= 2
    requires 0 <= i < rows && 0 <= j < cols
    requires !((i == 0 || i == rows - 1) && (j == 0 || j == cols - 1))
    ensures LandNeighbours(AllLand(rows, cols), rows, cols, i, j) >= 5
    ensures Step(AllLand(rows, cols), rows, cols)[i][j]
  {
  }

  /** A single-row or single-column all-land map has at most 2 neighbours per cell and turns entirely to water. */
  lemma AllLandThinErodes(rows: nat, cols: nat, i: int, j: int)
    requires rows == 1 || cols == 1
    requires 0 <= i < rows && 0 <= j < cols
    ensures LandNeighbours(AllLand(rows, cols), rows, cols, i, j) <= 2
    ensures !Step(AllLand(rows, cols), rows, cols)[i][j]
  {
  }
}
