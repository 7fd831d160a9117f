/**
 * The grid store (grid/grid.py): a rows x cols table of cells.
 *
 * The accessors take a position (x, y) and check `0 <= x < rows` and `0 <= y < cols`, but the
 * table is stored as a list of `rows` rows indexed [y][x]. A position the check accepts lies in
 * the table only when the grid is square; `SafeAt` is the exact condition under which an access
 * does not raise IndexError, and the lemmas below relate it to squareness.
 */
module GridStore {
  import opened Common
  import opened Cells

  /** The dictionary `save_json` builds and `from_json` reads. */
  datatype GridData = GridData(rows: int, cols: int, grid: seq<seq<map<string, Value>>>)

  /** The orthogonal offsets `get_navigable_neighbors` tries, in its order. */
  const Deltas4: seq<Delta> := [(-1, 0), (1, 0), (0, -1), (0, 1)]

  /** The positions the offsets of `Deltas4` lead to from (x, y), in the same order. */
  function Around(x: int, y: int): (r: seq<Pos>)
    ensures |r| == |Deltas4| && forall k :: 0 <= k < |r| ==> r[k] == (x + Deltas4[k].0, y + Deltas4[k].1)
    ensures Distinct(r)
  {
    seq(|Deltas4|, k requires 0 <= k < |Deltas4| => (x + Deltas4[k].0, y + Deltas4[k].1))
  }

  /** The cell objects a table refers to. */
  ghost function Objs(rs: seq<seq<GridCells>>): set<GridCells>
  {
    set i, j | 0 <= i < |rs| && 0 <= j < |rs[i]| :: rs[i][j]
  }

  /** The attribute mappings of a table, row by row. */
  function DictRows(rs: seq<seq<GridCells>>): (r: seq<seq<map<string, Value>>>)
    reads Objs(rs)
    ensures |r| == |rs|
    ensures forall i :: 0 <= i < |rs| ==> |r[i]| == |rs[i]|
    ensures forall i, j :: 0 <= i < |rs| && 0 <= j < |rs[i]| ==> r[i][j] == rs[i][j].dict
  {
    if rs == [] then []
    else
      var last := rs[|rs| - 1];
      assert forall j :: 0 <= j < |last| ==> last[j] == rs[|rs| - 1][j];
      DictRows(rs[..|rs| - 1]) + [seq(|last|, j requires 0 <= j < |last| reads Objs(rs) => last[j].dict)]
  }

  /** The number of cells of a table whose stored flag is truthy. */
  function NavCount(rs: seq<seq<GridCells>>): (n: nat)
    reads Objs(rs)
    ensures n <= CellTotal(rs)
  {
    if rs == [] then 0 else NavCount(rs[..|rs| - 1]) + RowNavCount(rs[|rs| - 1])
  }

  function RowNavCount(row: seq<GridCells>): (n: nat)
    reads set c | c in row
    ensures n <= |row|
  {
    if row == [] then 0 else RowNavCount(row[..|row| - 1]) + (if row[|row| - 1].Navigable() then 1 else 0)
  }

  /** The number of cells of a table. */
  function CellTotal(rs: seq<seq<GridCells>>): nat
  {
    if rs == [] then 0 else CellTotal(rs[..|rs| - 1]) + |rs[|rs| - 1]|
  }

  class Grid {
    var rows: int
    var cols: int
    var cells: seq<seq<GridCells>>
    /** The cell objects the grid answers for. */
    ghost var Repr: set<GridCells>

    /** Every cell of the table is one the grid answers for. */
    ghost predicate Owned()
      reads this
    {
      Objs(cells) <= Repr
    }

    /**
     * `is_valid_position`: the bounds check every accessor applies. On a well-shaped square grid
     * a position it accepts names an entry of the table.
     */
    function IsValidPosition(x: int, y: int): (r: bool)
      reads this
      ensures r && WellShaped() && rows == cols ==> InStorage(x, y)
    {
      0 <= x < rows && 0 <= y < cols
    }

    /** Position (x, y) names an entry of the table, which is indexed [y][x]. */
    predicate InStorage(x: int, y: int)
      reads this
    {
      0 <= y < |cells| && 0 <= x < |cells[y]|
    }

    /** An access at (x, y) cannot raise IndexError: if the bounds check passes, the entry exists. */
    predicate SafeAt(x: int, y: int)
      reads this
    {
      IsValidPosition(x, y) ==> InStorage(x, y)
    }

    ghost predicate Safe()
      reads this
    {
      forall x, y :: SafeAt(x, y)
    }

    /** The table has `rows` rows of `cols` cells each, as `__init__` builds it. */
    ghost predicate WellShaped()
      reads this
    {
      |cells| == rows && forall i :: 0 <= i < |cells| ==> |cells[i]| == cols
    }

    /** Every cell carries its required keys, and its "navigable" value is a bool. */
    ghost predicate BoolFlags()
      reads this, Repr
    {
      Owned() &&
      forall i, j :: 0 <= i < |cells| && 0 <= j < |cells[i]| ==>
        cells[i][j].Valid() && cells[i][j].dict["navigable"].VBool?
    }

    /**
     * `Grid()`: smooth the given initial map into a landmass map and build the default cell for
     * every [i][j] from the transposed map, so that (x, y) is navigable exactly where the landmass
     * map has no land at [x][y]. The source's transpose reads the map out of range unless the grid
     * is square or empty.
     */
    constructor (rows: nat, cols: nat, iterations: nat, init: seq<seq<bool>>)
      requires IsMap(init, rows, cols)
      requires rows == cols || rows == 0 || cols == 0
      ensures this.rows == rows && this.cols == cols
      ensures WellShaped() && Safe() && BoolFlags()
      ensures fresh(Repr)
      ensures forall i, j :: 0 <= i < rows && 0 <= j < cols ==>
        cells[i][j].dict == DefaultDict(Smooth(init, rows, cols, iterations)[j][i])
      ensures forall x, y :: IsValidPosition(x, y) ==>
        (IsNavigable(x, y) <==> !Smooth(init, rows, cols, iterations)[x][y])
    {
      var landmass := GridCells.GenerateLandmassMap(rows, cols, iterations, init);
      var table := BuildDefaultTable(rows, cols, landmass);
      this.rows := rows;
      this.cols := cols;
      cells := table;
      Repr := Objs(table);
      new;
      SquareIsSafe();
      forall o | o in Repr
        ensures fresh(o)
      {
        var a, b :| 0 <= a < |cells| && 0 <= b < |cells[a]| && o == cells[a][b];
        assert cells[a][b] == table[a][b] && a < rows && b < cols;
      }
      forall i, j | 0 <= i < |cells| && 0 <= j < |cells[i]|
        ensures cells[i][j].Valid() && cells[i][j].dict["navigable"].VBool?
      {
        assert cells[i][j].dict == DefaultDict(landmass[j][i]);
      }
    }

    /** The table of `__init__`: default cell [i][j] built from the transposed landmass map. */
    static method BuildDefaultTable(rows: nat, cols: nat, landmass: seq<seq<bool>>) returns (table: seq<seq<GridCells>>)
      requires IsMap(landmass, rows, cols)
      requires rows == cols || rows == 0 || cols == 0
      ensures |table| == rows && forall a :: 0 <= a < rows ==> |table[a]| == cols
      ensures forall a, b :: 0 <= a < rows && 0 <= b < cols ==> fresh(table[a][b])
      ensures forall a, b :: 0 <= a < rows && 0 <= b < cols ==> table[a][b].dict == DefaultDict(landmass[b][a])
    {
      table := [];
      var i := 0;
      while i < rows
        invariant 0 <= i <= rows && |table| == i
        invariant forall a :: 0 <= a < i ==> |table[a]| == cols
        invariant forall a, b :: 0 <= a < i && 0 <= b < cols ==> fresh(table[a][b])
        invariant forall a, b :: 0 <= a < i && 0 <= b < cols ==> table[a][b].dict == DefaultDict(landmass[b][a])
      {
        var row := BuildDefaultRow(i, cols, landmass);
        ghost var prev := table;
        table := table + [row];
        assert table[i] == row && forall a :: 0 <= a < i ==> table[a] == prev[a];
        assert forall a, b :: 0 <= a < i && 0 <= b < cols ==> fresh(prev[a][b]);
        i := i + 1;
      }
    }

    /** One row of `__init__`'s table: the default cells [i][0 .. cols). */
    static method BuildDefaultRow(i: int, cols: nat, landmass: seq<seq<bool>>) returns (row: seq<GridCells>)
      requires 0 <= i && cols <= |landmass| && forall b :: 0 <= b < cols ==> i < |landmass[b]|
      ensures |row| == cols
      ensures forall b :: 0 <= b < cols ==> fresh(row[b])
      ensures forall b :: 0 <= b < cols ==> row[b].dict == DefaultDict(landmass[b][i])
    {
      row := [];
      var j := 0;
      while j < cols
        invariant 0 <= j <= cols && |row| == j
        invariant forall b :: 0 <= b < j ==> fresh(row[b])
        invariant forall b :: 0 <= b < j ==> row[b].dict == DefaultDict(landmass[b][i])
      {
        var c := GridCells.Default(i, j, landmass);
        row := row + [c];
        j := j + 1;
      }
    }

    /** `from_json`: rebuild every cell through the validating constructor; a cell without "navigable" fails. */
    static method FromJson(data: GridData) returns (r: Result<Grid>)
      ensures r.Err? <==> exists i, j :: 0 <= i < |data.grid| && 0 <= j < |data.grid[i]| && "navigable" !in data.grid[i][j]
      ensures r.Err? ==> r.error == MissingKey("navigable")
      ensures r.Ok? ==> fresh(r.value) && fresh(r.value.Repr) && r.value.Owned()
      ensures r.Ok? ==> r.value.SaveJson() == data
    {
      var table: seq<seq<GridCells>> := [];
      var i := 0;
      while i < |data.grid|
        invariant 0 <= i <= |data.grid| && |table| == i
        invariant forall a :: 0 <= a < i ==> |table[a]| == |data.grid[a]|
        invariant forall a, b :: 0 <= a < i && 0 <= b < |data.grid[a]| ==>
          fresh(table[a][b]) && table[a][b].dict == data.grid[a][b] && "navigable" in data.grid[a][b]
      {
        var row: seq<GridCells> := [];
        var j := 0;
        while j < |data.grid[i]|
          invariant 0 <= j <= |data.grid[i]| && |row| == j
          invariant forall b :: 0 <= b < j ==> fresh(row[b]) && row[b].dict == data.grid[i][b] && "navigable" in data.grid[i][b]
          invariant forall a, b :: 0 <= a < i && 0 <= b < |data.grid[a]| ==>
            fresh(table[a][b]) && table[a][b].dict == data.grid[a][b] && "navigable" in data.grid[a][b]
        {
          var c := GridCells.Create(data.grid[i][j]);
          if c.Err? {
            assert "navigable" !in data.grid[i][j];
            return Err(c.error);
          }
          row := row + [c.value];
          j := j + 1;
        }
        table := table + [row];
        i := i + 1;
      }
      var g := new Grid(0, 0, 0, []);
      g.rows := data.rows;
      g.cols := data.cols;
      g.cells := table;
      g.Repr := Objs(table);
      assert forall o :: o in g.Repr ==> fresh(o);
      DictRowsOf(table, data.grid);
      return Ok(g);
    }

    /** `set_cell`: replace the cell at [y][x] when (x, y) passes the bounds check, else do nothing. */
    method SetCell(x: int, y: int, value: GridCells)
      requires SafeAt(x, y)
      modifies this
      ensures rows == old(rows) && cols == old(cols)
      ensures cells == if old(IsValidPosition(x, y)) then old(cells)[y := old(cells)[y][x := value]] else old(cells)
      ensures IsValidPosition(x, y) ==> GetCell(x, y) == Some(value)
      ensures old(WellShaped()) ==> WellShaped()
      ensures old(Safe()) ==> Safe()
      ensures Repr == old(Repr) + {value}
      ensures old(Owned()) ==> Owned()
    {
      if IsValidPosition(x, y) {
        cells := cells[y := cells[y][x := value]];
      }
      Repr := Repr + {value};
      if old(Safe()) {
        forall a, b
          ensures SafeAt(a, b)
        {
          assert old(SafeAt(a, b));
        }
      }
    }

    /** `get_cell`: the cell stored at [y][x] for a position that passes the bounds check, None otherwise. */
    function GetCell(x: int, y: int): (r: Option<GridCells>)
      reads this
      requires SafeAt(x, y)
      ensures r.Some? <==> IsValidPosition(x, y)
      ensures r.Some? ==> r.value == cells[y][x]
    {
      if IsValidPosition(x, y) then Some(cells[y][x]) else None
    }

    /** `is_navigable`, reading the cell's stored "navigable" value: false for every out-of-bounds position. */
    function IsNavigable(x: int, y: int): (r: bool)
      reads this, Repr
      requires SafeAt(x, y) && Owned()
      ensures !IsValidPosition(x, y) ==> !r
      ensures IsValidPosition(x, y) ==> (r <==> GetCell(x, y).value.Navigable())
    {
      IsValidPosition(x, y) && cells[y][x].Navigable()
    }

    /** c is a chart of the grid: it holds exactly the positions `is_navigable` accepts. */
    ghost predicate Charts(c: set<Pos>)
      reads this, Repr
      requires Safe() && Owned()
    {
      forall x, y {:trigger IsNavigable(x, y)} :: (x, y) in c <==> IsNavigable(x, y)
    }

    /** The chart of the grid, as a value. */
    ghost function Chart(): (c: set<Pos>)
      reads this, Repr
      requires Safe() && Owned()
      ensures Charts(c)
    {
      set x, y | 0 <= x < rows && 0 <= y < cols && IsNavigable(x, y) :: (x, y)
    }

    /**
     * `is_navigable` as written: it returns the cell's `navigable` attribute, which the cell
     * constructor sets from the builtin `dict` type subscripted with "navigable" rather than from
     * the keywords. That object is truthy whatever the cell's key says.
     */
    function IsNavigableAsWritten(x: int, y: int): (r: bool)
      reads this
      requires SafeAt(x, y)
      ensures r <==> IsValidPosition(x, y)
    {
      IsValidPosition(x, y)
    }

    /** On every land cell the as-written query answers navigable while the stored key says otherwise. */
    lemma AsWrittenIgnoresFlag(x: int, y: int)
      requires SafeAt(x, y) && Owned() && IsValidPosition(x, y) && !cells[y][x].Navigable()
      ensures IsNavigableAsWritten(x, y) && !IsNavigable(x, y)
    {
    }

    /** `save_json`: rows, cols and every cell's mapping at its [row][col]. */
    function SaveJson(): (r: GridData)
      reads this, Repr
      requires Owned()
      ensures r.rows == rows && r.cols == cols && |r.grid| == |cells|
      ensures forall i :: 0 <= i < |cells| ==> |r.grid[i]| == |cells[i]|
      ensures forall i, j :: 0 <= i < |cells| && 0 <= j < |cells[i]| ==> r.grid[i][j] == cells[i][j].dict
    {
      GridData(rows, cols, DictRows(cells))
    }

    /** What `save_json` produces from a grid of valid cells loads again, so `from_json` succeeds on it. */
    lemma {:induction false} SavedGridLoads()
      requires BoolFlags()
      ensures forall i, j :: 0 <= i < |SaveJson().grid| && 0 <= j < |SaveJson().grid[i]| ==>
        "navigable" in SaveJson().grid[i][j]
    {
      var d := SaveJson();
      forall i, j | 0 <= i < |d.grid| && 0 <= j < |d.grid[i]|
        ensures "navigable" in d.grid[i][j]
      {
        assert cells[i][j].Valid();
      }
    }

    /** `get_navigable_neighbors`: the in-bounds navigable positions among the four orthogonal neighbours, in offset order. */
    method GetNavigableNeighbors(x: int, y: int) returns (neighbors: seq<Pos>)
      requires Owned() && forall p :: p in Around(x, y) ==> SafeAt(p.0, p.1)
      ensures neighbors == NavigableAround(x, y, |Deltas4|)
    {
      neighbors := [];
      var k := 0;
      while k < |Deltas4|
        invariant 0 <= k <= |Deltas4|
        invariant neighbors == NavigableAround(x, y, k)
      {
        var d := Deltas4[k];
        var nx, ny := x + d.0, y + d.1;
        assert Around(x, y)[k] == (nx, ny);
        if IsValidPosition(nx, ny) && IsNavigable(nx, ny) {
          neighbors := neighbors + [(nx, ny)];
        }
        k := k + 1;
      }
    }

    /** The navigable positions among the first k neighbours of (x, y), in offset order. */
    function NavigableAround(x: int, y: int, k: nat): (r: seq<Pos>)
      reads this, Repr
      requires k <= |Deltas4|
      requires Owned() && forall p :: p in Around(x, y) ==> SafeAt(p.0, p.1)
      ensures |r| <= k
    {
      if k == 0 then []
      else
        var p := Around(x, y)[k - 1];
        NavigableAround(x, y, k - 1) + if IsNavigable(p.0, p.1) then [p] else []
    }

    /** The positions kept are exactly the navigable ones among the first k neighbours. */
    lemma {:induction false} NavigableAroundMembers(x: int, y: int, k: nat)
      requires k <= |Deltas4|
      requires Owned() && forall p :: p in Around(x, y) ==> SafeAt(p.0, p.1)
      ensures forall p :: p in NavigableAround(x, y, k) <==> p in Around(x, y)[..k] && IsNavigable(p.0, p.1)
    {
      if k > 0 {
        NavigableAroundMembers(x, y, k - 1);
        PrefixSnoc(Around(x, y), k - 1);
      }
    }

    /** No position is kept twice. */
    lemma {:induction false} NavigableAroundDistinct(x: int, y: int, k: nat)
      requires k <= |Deltas4|
      requires Owned() && forall p :: p in Around(x, y) ==> SafeAt(p.0, p.1)
      ensures Distinct(NavigableAround(x, y, k))
    {
      if k > 0 {
        var ps := Around(x, y);
        NavigableAroundDistinct(x, y, k - 1);
        NavigableAroundMembers(x, y, k - 1);
        var p := ps[k - 1];
        assert p !in ps[..k - 1] by {
          assert forall i :: 0 <= i < k - 1 ==> ps[i] != ps[k - 1];
        }
        var q := NavigableAround(x, y, k - 1);
        assert p !in q;
        if IsNavigable(p.0, p.1) {
          var r := q + [p];
          forall i, j | 0 <= i < j < |r|
            ensures r[i] != r[j]
          {
            if j == |q| {
              assert q[i] in q;
            } else {
              assert r[i] == q[i] && r[j] == q[j];
            }
          }
        }
      }
    }

    /** `count_navigable_cells`: the number of cells whose stored flag is truthy. */
    function CountNavigableCells(): (n: nat)
      reads this, Repr
      requires Owned()
      ensures n <= CellTotal(cells)
      ensures WellShaped() ==> n <= rows * cols
    {
      TotalOfShape(cells, rows, cols);
      NavCount(cells)
    }

    /**
     * `count_navigable_cells` as written: it sums the cells' `navigable` attributes, which are the
     * subscripted builtin `dict` rather than numbers, so the sum raises TypeError at the first cell
     * and only an empty table yields 0.
     */
    function CountNavigableCellsAsWritten(): (r: Result<nat>)
      reads this
      ensures r.Err? <==> exists i :: 0 <= i < |cells| && cells[i] != []
      ensures r.Err? ==> r.error == TypeError
      ensures r.Ok? ==> r.value == 0
    {
      if forall i :: 0 <= i < |cells| ==> cells[i] == [] then Ok(0) else Err(TypeError)
    }

    /**
     * On a well-shaped square (or empty) grid the count is the number of positions `is_navigable`
     * accepts: the [y][x] storage order does not change what is counted.
     */
    lemma CountIsChart()
      requires Owned() && WellShaped() && (rows == cols || rows <= 0 || cols <= 0)
      ensures Safe() && CountNavigableCells() == |Chart()|
    {
      SquareIsSafe();
      NavCountIsSetSize(cells);
      forall p
        ensures p in Chart() <==> p in NavSet(cells)
      {
        var (x, y) := p;
        if p in Chart() {
          assert IsNavigable(x, y);
          assert cells[y][x].Navigable();
        }
        if p in NavSet(cells) {
          var i, j :| 0 <= i < |cells| && 0 <= j < |cells[i]| && cells[i][j].Navigable() && p == (j, i);
          assert IsValidPosition(j, i) && IsNavigable(j, i);
        }
      }
      assert Chart() == NavSet(cells);
    }

    /** On every non-empty table the as-written count fails where the corrected count answers. */
    lemma AsWrittenCountFails(i: int, j: int)
      requires Owned() && 0 <= i < |cells| && 0 <= j < |cells[i]|
      ensures CountNavigableCellsAsWritten() == Err(TypeError)
      ensures CountNavigableCells() <= CellTotal(cells)
    {
    }

    /** On a well-shaped grid, every position the bounds check accepts is in the table exactly when the grid is square (or empty). */
    lemma SquareIsSafe()
      requires WellShaped() && (rows == cols || rows <= 0 || cols <= 0)
      ensures Safe()
    {
    }

    lemma NonSquareIsUnsafe()
      requires WellShaped() && rows > 0 && cols > 0 && rows != cols
      ensures !Safe()
    {
      if rows > cols {
        assert !SafeAt(cols, 0);
      } else {
        assert !SafeAt(0, rows);
      }
    }
  }

  /** The positions (x, y) whose cell [y][x] has a truthy flag: the set `count_navigable_cells` counts. */
  ghost function NavSet(rs: seq<seq<GridCells>>): set<Pos>
    reads Objs(rs)
  {
    set i, j | 0 <= i < |rs| && 0 <= j < |rs[i]| && rs[i][j].Navigable() :: (j, i)
  }

  /** The positions (x, y) of the truthy cells of one row y. */
  ghost function RowSet(row: seq<GridCells>, y: int): set<Pos>
    reads set c | c in row
  {
    set j | 0 <= j < |row| && row[j].Navigable() :: (j, y)
  }

  /** A row's count is the number of its positions whose flag is truthy. */
  lemma {:induction false} RowCountIsSetSize(row: seq<GridCells>, y: int)
    ensures RowNavCount(row) == |RowSet(row, y)|
  {
    if row != [] {
      RowCountIsSetSize(row[..|row| - 1], y);
      RowSetSplit(row, y);
    }
  }

  /** The positions of a row are those of all cells but the last, plus the last one's when it is truthy. */
  lemma RowSetSplit(row: seq<GridCells>, y: int)
    requires row != []
    ensures RowSet(row, y) == RowSet(row[..|row| - 1], y) + if row[|row| - 1].Navigable() then {(|row| - 1, y)} else {}
    ensures (|row| - 1, y) !in RowSet(row[..|row| - 1], y)
  {
    var init, n := row[..|row| - 1], |row| - 1;
    var extra: set<Pos> := if row[n].Navigable() then {(n, y)} else {};
    forall p
      ensures p in RowSet(row, y) <==> p in RowSet(init, y) + extra
    {
      if p in RowSet(row, y) {
        var j :| 0 <= j < |row| && row[j].Navigable() && p == (j, y);
        if j < n {
          assert init[j] == row[j];
        }
      }
      if p in RowSet(init, y) {
        var j :| 0 <= j < |init| && init[j].Navigable() && p == (j, y);
        assert row[j] == init[j];
      }
    }
  }

  /** The count of a table is the number of positions whose cell has a truthy flag. */
  lemma {:induction false} NavCountIsSetSize(rs: seq<seq<GridCells>>)
    ensures NavCount(rs) == |NavSet(rs)|
  {
    if rs != [] {
      var init, n := rs[..|rs| - 1], |rs| - 1;
      NavCountIsSetSize(init);
      RowCountIsSetSize(rs[n], n);
      NavSetSplit(rs);
    }
  }

  /** The positions of a table are those of all rows but the last, and, disjoint from them, those of the last row. */
  lemma NavSetSplit(rs: seq<seq<GridCells>>)
    requires rs != []
    ensures NavSet(rs) == NavSet(rs[..|rs| - 1]) + RowSet(rs[|rs| - 1], |rs| - 1)
    ensures NavSet(rs[..|rs| - 1]) * RowSet(rs[|rs| - 1], |rs| - 1) == {}
  {
    var init, n := rs[..|rs| - 1], |rs| - 1;
    forall p
      ensures p in NavSet(rs) <==> p in NavSet(init) + RowSet(rs[n], n)
    {
      if p in NavSet(rs) {
        var i, j :| 0 <= i < |rs| && 0 <= j < |rs[i]| && rs[i][j].Navigable() && p == (j, i);
        if i < n {
          assert init[i] == rs[i];
        }
      }
      if p in NavSet(init) {
        var i, j :| 0 <= i < |init| && 0 <= j < |init[i]| && init[i][j].Navigable() && p == (j, i);
        assert rs[i] == init[i];
      }
    }
    forall p | p in NavSet(init)
      ensures p.1 < n
    {
    }
  }

  /** A table of `rows` rows of `cols` cells has rows * cols cells. */
  lemma {:induction false} TotalOfShape(rs: seq<seq<GridCells>>, rows: int, cols: int)
    ensures (|rs| == rows && forall i :: 0 <= i < |rs| ==> |rs[i]| == cols) ==> CellTotal(rs) == rows * cols
  {
    if rs != [] && |rs| == rows && forall i :: 0 <= i < |rs| ==> |rs[i]| == cols {
      TotalOfShape(rs[..|rs| - 1], rows - 1, cols);
    }
  }

  lemma DictRowsOf(rs: seq<seq<GridCells>>, d: seq<seq<map<string, Value>>>)
    requires |rs| == |d| && forall i :: 0 <= i < |rs| ==> |rs[i]| == |d[i]|
    requires forall i, j :: 0 <= i < |rs| && 0 <= j < |rs[i]| ==> rs[i][j].dict == d[i][j]
    ensures DictRows(rs) == d
  {
    var r := DictRows(rs);
    forall i | 0 <= i < |rs|
      ensures r[i] == d[i]
    {
    }
  }

  /** Every cell of a table is navigable exactly when the count equals the number of cells. */
  lemma {:induction false} CountFullIffAllNavigable(rs: seq<seq<GridCells>>)
    ensures NavCount(rs) == CellTotal(rs) <==>
      forall i, j :: 0 <= i < |rs| && 0 <= j < |rs[i]| ==> rs[i][j].Navigable()
  {
    if rs != [] {
      var init, last := rs[..|rs| - 1], rs[|rs| - 1];
      CountFullIffAllNavigable(init);
      RowFullIffAllNavigable(last);
      assert forall i :: 0 <= i < |init| ==> init[i] == rs[i];
    }
  }

  lemma {:induction false} RowFullIffAllNavigable(row: seq<GridCells>)
    ensures RowNavCount(row) == |row| <==> forall j :: 0 <= j < |row| ==> row[j].Navigable()
  {
    if row != [] {
      RowFullIffAllNavigable(row[..|row| - 1]);
      assert forall j :: 0 <= j < |row| - 1 ==> row[..|row| - 1][j] == row[j];
    }
  }

  /** No cell of a table is navigable exactly when the count is zero. */
  lemma {:induction false} CountZeroIffNoneNavigable(rs: seq<seq<GridCells>>)
    ensures NavCount(rs) == 0 <==>
      forall i, j :: 0 <= i < |rs| && 0 <= j < |rs[i]| ==> !rs[i][j].Navigable()
  {
    if rs != [] {
      var init, last := rs[..|rs| - 1], rs[|rs| - 1];
      CountZeroIffNoneNavigable(init);
      RowZeroIffNoneNavigable(last);
      assert forall i :: 0 <= i < |init| ==> init[i] == rs[i];
    }
  }

  lemma {:induction false} RowZeroIffNoneNavigable(row: seq<GridCells>)
    ensures RowNavCount(row) == 0 <==> forall j :: 0 <= j < |row| ==> !row[j].Navigable()
  {
    if row != [] {
      RowZeroIffNoneNavigable(row[..|row| - 1]);
      assert forall j :: 0 <= j < |row| - 1 ==> row[..|row| - 1][j] == row[j];
    }
  }
}
