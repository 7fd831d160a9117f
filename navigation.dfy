/**
 * Greedy navigation with backtracking (nav/navigate.py): from the boat's position, take the
 * available move to an unvisited position that minimises the distance to the target plus a
 * penalty for ending next to the shore; when there is none, step back along the path taken.
 */
module Navigation {
  import opened Common
  import opened GridStore
  import opened Boats

  /** The penalty added to the score of a position next to the shore. */
  const ShorePenalty: real := 10.0

  /** The squared Euclidean distance between two positions. */
  function SquaredDistance(p: Pos, q: Pos): (r: int)
    ensures r >= 0
    ensures r == 0 <==> p == q
  {
    var a, b := q.0 - p.0, q.1 - p.1;
    SquarePositive(a);
    SquarePositive(b);
    a * a + b * b
  }

  lemma SquarePositive(a: int)
    ensures a * a >= 0 && (a != 0 ==> a * a > 0)
  {
    if a > 0 {
      assert a * a >= a * 1;
    } else if a < 0 {
      assert a * a == (-a) * (-a);
      assert (-a) * (-a) >= (-a) * 1;
    }
  }

  /**
   * `dist` is the Euclidean distance: a non-negative number whose square is the squared distance,
   * which is what `math.sqrt(dx ** 2 + dy ** 2)` returns, read as an exact real.
   */
  ghost predicate Euclidean(dist: (Pos, Pos) -> real)
  {
    forall p, q :: DistanceAt(dist, p, q)
  }

  /** `dist(p, q)` is the non-negative square root of the squared distance from p to q. */
  ghost predicate DistanceAt(dist: (Pos, Pos) -> real, p: Pos, q: Pos)
  {
    dist(p, q) >= 0.0 && dist(p, q) * dist(p, q) == SquaredDistance(p, q) as real
  }

  /** Two non-negative reals with the same square are equal. */
  lemma SquareRootUnique(a: real, b: real)
    requires a >= 0.0 && b >= 0.0 && a * a == b * b
    ensures a == b
  {
    if a < b {
      SquareMonotone(a, b);
    } else if b < a {
      SquareMonotone(b, a);
    }
  }

  lemma SquareMonotone(a: real, b: real)
    requires 0.0 <= a < b
    ensures a * a < b * b
  {
    var d := b - a;
    assert b * b == a * a + 2.0 * a * d + d * d;
    assert d * d > 0.0;
    assert a * d >= 0.0;
  }

  /** The Euclidean distance is symmetric. */
  lemma DistanceSymmetric(dist: (Pos, Pos) -> real, p: Pos, q: Pos)
    requires Euclidean(dist)
    ensures dist(p, q) == dist(q, p)
  {
    assert DistanceAt(dist, p, q) && DistanceAt(dist, q, p);
    assert SquaredDistance(p, q) == SquaredDistance(q, p);
    SquareRootUnique(dist(p, q), dist(q, p));
  }

  /** The Euclidean distance is zero exactly between equal positions. */
  lemma DistanceZeroIffSame(dist: (Pos, Pos) -> real, p: Pos, q: Pos)
    requires Euclidean(dist)
    ensures dist(p, q) == 0.0 <==> p == q
  {
    assert DistanceAt(dist, p, q);
    if p == q {
      SquareRootUnique(dist(p, q), 0.0);
    }
  }

  /** Where the move m takes a boat at p. */
  function Dest(p: Pos, m: Delta): Pos
  {
    (p.0 + m.0, p.1 + m.1)
  }

  /** (nx, ny) is shore: inside the configured bounds and not navigable on the chart. */
  predicate ShoreIn(chart: set<Pos>, rows: int, cols: int, nx: int, ny: int)
  {
    0 <= nx < rows && 0 <= ny < cols && (nx, ny) !in chart
  }

  /** The neighbour of (px, py) in direction (dx, dy) is shore. */
  predicate ShoreDelta(chart: set<Pos>, rows: int, cols: int, px: int, py: int, dx: int, dy: int)
  {
    IsDelta(dx, dy) && ShoreIn(chart, rows, cols, px + dx, py + dy)
  }

  /** One of the eight neighbours of (px, py) is shore; neighbours outside the bounds never count. */
  ghost predicate NearShore(chart: set<Pos>, rows: int, cols: int, px: int, py: int)
  {
    exists dx, dy :: ShoreDelta(chart, rows, cols, px, py, dx, dy)
  }

  /** A position whose in-bounds neighbours are all navigable is not near shore, wherever the bounds cut. */
  lemma OpenNeighbourhoodNotNearShore(chart: set<Pos>, rows: int, cols: int, px: int, py: int)
    requires forall dx, dy :: IsDelta(dx, dy) && 0 <= px + dx < rows && 0 <= py + dy < cols ==> (px + dx, py + dy) in chart
    ensures !NearShore(chart, rows, cols, px, py)
  {
  }

  /** A non-navigable in-bounds neighbour makes a position near shore. */
  lemma BlockedNeighbourNearShore(chart: set<Pos>, rows: int, cols: int, px: int, py: int, dx: int, dy: int)
    requires IsDelta(dx, dy) && 0 <= px + dx < rows && 0 <= py + dy < cols && (px + dx, py + dy) !in chart
    ensures NearShore(chart, rows, cols, px, py)
  {
    assert ShoreDelta(chart, rows, cols, px, py, dx, dy);
  }

  /** Adding an open position to a set of open positions keeps every position in it open. */
  lemma VisitOpen(chart: set<Pos>, rows: int, cols: int, v: set<Pos>, p: Pos)
    requires forall q :: q in v ==> OpenIn(chart, rows, cols, q.0, q.1)
    requires OpenIn(chart, rows, cols, p.0, p.1)
    ensures forall q :: q in v + {p} ==> OpenIn(chart, rows, cols, q.0, q.1)
  {
  }

  class GreedyNavigate {
    const boat: Boat
    const target: Pos
    const dist: (Pos, Pos) -> real
    var visited: set<Pos>
    var pathStack: seq<Pos>

    /** `GreedyNavigate(boat)`: nothing visited, an empty path, a target fixed from here on. */
    constructor (boat: Boat, target: Pos, dist: (Pos, Pos) -> real)
      ensures this.boat == boat && this.target == target && this.dist == dist
      ensures visited == {} && pathStack == []
    {
      this.boat := boat;
      this.target := target;
      this.dist := dist;
      visited := {};
      pathStack := [];
    }

    /** What scoring needs: a well-formed boat and grid, and a Euclidean distance. */
    ghost predicate Ready()
      reads boat.grid, boat.grid.Repr
    {
      boat.Valid() && Euclidean(dist)
    }

    /** `Ready`, and every visited position is one the boat may enter. */
    ghost predicate Valid()
      reads this, boat.grid, boat.grid.Repr
    {
      Ready() && forall p :: p in visited ==> OpenIn(boat.chart, boat.rows, boat.cols, p.0, p.1)
    }

    /** `calculate_distance`: the Euclidean distance from p to q. */
    function CalculateDistance(p: Pos, q: Pos): (r: real)
      requires Euclidean(dist)
      ensures r >= 0.0 && r * r == SquaredDistance(p, q) as real
      ensures r == 0.0 <==> p == q
    {
      assert DistanceAt(dist, p, q);
      DistanceZeroIffSame(dist, p, q);
      dist(p, q)
    }

    /** The score `get_best_move` minimises: distance to the target, plus the shore penalty. */
    ghost function Score(p: Pos): real
    {
      dist(p, target) + if NearShore(boat.chart, boat.rows, boat.cols, p.0, p.1) then ShorePenalty else 0.0
    }

    /** An available move from pos to a position not yet visited. */
    ghost predicate Candidate(px: int, py: int, visited: set<Pos>, m: Delta)
    {
      m in MovesFrom(boat.chart, boat.rows, boat.cols, px, py) && Dest((px, py), m) !in visited
    }

    ghost predicate HasCandidate(px: int, py: int, visited: set<Pos>)
    {
      exists m :: Candidate(px, py, visited, m)
    }

    /** A candidate whose score no other candidate beats. */
    ghost predicate IsBestMove(px: int, py: int, visited: set<Pos>, m: Delta)
    {
      Candidate(px, py, visited, m)
      && forall m' :: Candidate(px, py, visited, m') ==> Score(Dest((px, py), m)) <= Score(Dest((px, py), m'))
    }

    /** `is_near_shore`: scan the eight neighbours and stop at the first shore cell. */
    method IsNearShore(px: int, py: int) returns (near: bool)
      requires Ready()
      ensures near <==> NearShore(boat.chart, boat.rows, boat.cols, px, py)
    {
      var dx := -1;
      while dx <= 1
        invariant -1 <= dx <= 2
        invariant forall a, b :: Before(a, b, dx, -1) ==> !ShoreDelta(boat.chart, boat.rows, boat.cols, px, py, a, b)
      {
        var dy := -1;
        while dy <= 1
          invariant -1 <= dy <= 2
          invariant forall a, b :: Before(a, b, dx, dy) ==> !ShoreDelta(boat.chart, boat.rows, boat.cols, px, py, a, b)
        {
          if !(dx == 0 && dy == 0) {
            var nx, ny := px + dx, py + dy;
            if 0 <= nx < boat.rows && 0 <= ny < boat.cols {
              var cell := boat.grid.GetCell(nx, ny);
              var flag := cell.value.Get("navigable");
              assert Truthy(flag.value) == boat.grid.IsNavigable(nx, ny);
              if !Truthy(flag.value) {
                assert ShoreDelta(boat.chart, boat.rows, boat.cols, px, py, dx, dy);
                return true;
              }
            }
          }
          dy := dy + 1;
        }
        dx := dx + 1;
      }
      return false;
    }

    /**
     * `get_best_move`: the candidate with the lowest score, or None when every available move
     * leads to a visited position. Among equal scores the source keeps the first in the set's
     * iteration order, which the model leaves open.
     */
    method GetBestMove() returns (best: Option<Delta>)
      requires Ready()
      ensures best.None? <==> !HasCandidate(boat.x, boat.y, visited)
      ensures best.Some? ==> IsBestMove(boat.x, boat.y, visited, best.value)
    {
      var moves := boat.GetAvailability();
      var found, bm, bestScore := PickBest(moves);
      assert forall m :: Candidate(boat.x, boat.y, visited, m) <==> m in moves && Dest((boat.x, boat.y), m) !in visited;
      best := if found then Some(bm) else None;
    }

    /** The scan of `get_best_move` over the available moves. */
    method PickBest(moves: set<Delta>) returns (found: bool, bm: Delta, bestScore: real)
      requires Ready()
      ensures !found ==> forall m :: m in moves ==> Dest((boat.x, boat.y), m) in visited
      ensures found ==> bm in moves && Dest((boat.x, boat.y), bm) !in visited
      ensures found ==> forall m :: m in moves && Dest((boat.x, boat.y), m) !in visited ==> Score(Dest((boat.x, boat.y), bm)) <= Score(Dest((boat.x, boat.y), m))
    {
      var pos := (boat.x, boat.y);
      found, bm, bestScore := false, (0, 0), 0.0;
      var rest := moves;
      while rest != {}
        invariant rest <= moves
        invariant Ready()
        invariant !found ==> forall m :: m in moves && m !in rest ==> Dest(pos, m) in visited
        invariant found ==> bm in moves && Dest(pos, bm) !in visited && bestScore == Score(Dest(pos, bm))
        invariant found ==> forall m :: m in moves && m !in rest && Dest(pos, m) !in visited ==> bestScore <= Score(Dest(pos, m))
        decreases rest
      {
        var m :| m in rest;
        rest := rest - {m};
        var p := Dest(pos, m);
        if p in visited {
          continue;
        }
        var score := ScoreOf(p);
        if !found || score < bestScore {
          found, bm, bestScore := true, m, score;
        }
      }
    }

    /** The score of one position, computed as `get_best_move` does. */
    method ScoreOf(p: Pos) returns (score: real)
      requires Ready()
      ensures score == Score(p)
    {
      var distance := CalculateDistance(p, target);
      var near := IsNearShore(p.0, p.1);
      var penalty := if near then ShorePenalty else 0.0;
      score := distance + penalty;
    }

    /**
     * `navigate`: take the best move, pushing the old position and marking the new one visited;
     * with no candidate, pop the path and return to its last position; with an empty path too,
     * stay put.
     */
    method Navigate()
      requires Valid()
      modifies this, boat
      ensures Valid()
      ensures old(visited) <= visited
      ensures old(HasCandidate(boat.x, boat.y, visited)) ==>
        IsBestMove(old(boat.x), old(boat.y), old(visited), (boat.x - old(boat.x), boat.y - old(boat.y)))
        && pathStack == old(pathStack) + [(old(boat.x), old(boat.y))]
        && visited == old(visited) + {(boat.x, boat.y)}
      ensures !old(HasCandidate(boat.x, boat.y, visited)) && old(pathStack) != [] ==>
        pathStack == old(pathStack[..|pathStack| - 1])
        && (boat.x, boat.y) == old(pathStack[|pathStack| - 1])
        && visited == old(visited)
      ensures !old(HasCandidate(boat.x, boat.y, visited)) && old(pathStack) == [] ==>
        pathStack == [] && boat.x == old(boat.x) && boat.y == old(boat.y) && visited == old(visited)
    {
      var best := GetBestMove();
      ghost var has := HasCandidate(boat.x, boat.y, visited);
      assert has <==> best.Some?;
      if best.Some? {
        Advance(best.value);
        assert (boat.x - old(boat.x), boat.y - old(boat.y)) == best.value;
      } else if pathStack != [] {
        Backtrack();
      }
    }

    /** The forward step of `navigate`: push the current position, take the move, mark the new position visited. */
    method Advance(m: Delta)
      requires Valid() && Candidate(boat.x, boat.y, visited, m)
      modifies this, boat
      ensures Valid()
      ensures boat.x == old(boat.x) + m.0 && boat.y == old(boat.y) + m.1
      ensures pathStack == old(pathStack) + [(old(boat.x), old(boat.y))]
      ensures visited == old(visited) + {(boat.x, boat.y)}
    {
      var pos := (boat.x, boat.y);
      var moved := boat.Move(m.0, m.1);
      assert (boat.x, boat.y) == Dest(pos, m);
      VisitOpen(boat.chart, boat.rows, boat.cols, visited, Dest(pos, m));
      pathStack, visited := pathStack + [pos], visited + {Dest(pos, m)};
    }

    /** The backward step of `navigate`: pop the last position and put the boat back there. */
    method Backtrack()
      requires Valid() && pathStack != []
      modifies this, boat
      ensures Valid()
      ensures pathStack == old(pathStack[..|pathStack| - 1])
      ensures (boat.x, boat.y) == old(pathStack[|pathStack| - 1])
      ensures visited == old(visited)
    {
      var last := pathStack[|pathStack| - 1];
      pathStack := pathStack[..|pathStack| - 1];
      boat.x, boat.y := last.0, last.1;
    }
  }
}
