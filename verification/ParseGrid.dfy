/**
 The drop-off distance analysis of scripts/parse_grid.py: breadth-first search over a
 walled grid, and the distance of the nearest reached cell next to each item.

 The reference definition is the walk: a sequence of cells that starts at the drop-off,
 moves to a cell beside the last one at a time and enters only cells within the bounds that are no
 walls. It knows nothing of the search and its list of offsets. The drop-off itself is never tested
 against the walls or the bounds.
 */
module ParseGrid {

  datatype Cell = Cell(x: int, y: int)

  datatype Grid = Grid(width: int, height: int, walls: set<Cell>) {
    predicate Open(c: Cell) {
      0 <= c.x < width && 0 <= c.y < height && c !in walls
    }

    ghost function Cells(): set<Cell> {
      set x, y | 0 <= x < width && 0 <= y < height :: Cell(x, y)
    }
  }

  /** The offset list, in the order in which the script tries it. */
  const OFFSETS: seq<(int, int)> := [(0, 1), (0, -1), (1, 0), (-1, 0)]

  function Neighbour(c: Cell, k: nat): Cell
    requires k < 4
  {
    Cell(c.x + OFFSETS[k].0, c.y + OFFSETS[k].1)
  }

  /** The cells lie beside or above each other. */
  ghost predicate Adjacent(a: Cell, b: Cell) {
    || (a.x == b.x && (a.y == b.y + 1 || b.y == a.y + 1))
    || (a.y == b.y && (a.x == b.x + 1 || b.x == a.x + 1))
  }

  /** The offsets lead to the adjacent cells, all of them and no others. */
  lemma OffsetsLeadToAdjacentCells(a: Cell, b: Cell)
    ensures Adjacent(a, b) <==> exists k: nat | k < 4 :: b == Neighbour(a, k)
  {
    if Adjacent(a, b) {
      var k := if b.y == a.y + 1 then 0 else if a.y == b.y + 1 then 1 else if b.x == a.x + 1 then 2 else 3;
      assert b == Neighbour(a, k);
    }
  }

  function Abs(n: int): nat {
    if n < 0 then -n else n
  }

  function Manhattan(a: Cell, b: Cell): nat {
    Abs(a.x - b.x) + Abs(a.y - b.y)
  }

  /** Adjacent cells are those at Manhattan distance one. */
  lemma AdjacentIffManhattanIsOne(a: Cell, b: Cell)
    ensures Adjacent(a, b) <==> Manhattan(a, b) == 1
  {
  }

  // ---------- walks, the reference definition ----------

  ghost predicate IsWalk(g: Grid, start: Cell, walk: seq<Cell>, end: Cell) {
    && |walk| > 0
    && walk[0] == start
    && walk[|walk| - 1] == end
    && forall i | 0 < i < |walk| ::
      && Adjacent(walk[i - 1], walk[i])
      && 0 <= walk[i].x < g.width && 0 <= walk[i].y < g.height && walk[i] !in g.walls
  }

  /** Some walk makes exactly `steps` moves from `start` to `end`. */
  ghost predicate WalkOf(g: Grid, start: Cell, end: Cell, steps: nat) {
    exists walk :: IsWalk(g, start, walk, end) && |walk| == steps + 1
  }

  ghost predicate Reachable(g: Grid, start: Cell, c: Cell) {
    exists steps :: WalkOf(g, start, c, steps)
  }

  ghost predicate Shortest(g: Grid, start: Cell, c: Cell, steps: nat) {
    && WalkOf(g, start, c, steps)
    && forall other | WalkOf(g, start, c, other) :: steps <= other
  }

  /** What the distance map promises: its keys are the reachable cells, its values shortest walks. */
  ghost predicate IsDistanceMap(g: Grid, start: Cell, dist: map<Cell, nat>) {
    && (forall c :: c in dist <==> Reachable(g, start, c))
    && (forall c | c in dist :: Shortest(g, start, c, dist[c]))
  }

  lemma ExtendWalk(g: Grid, start: Cell, a: Cell, steps: nat, b: Cell)
    requires WalkOf(g, start, a, steps) && Adjacent(a, b) && g.Open(b)
    ensures WalkOf(g, start, b, steps + 1)
  {
    var walk :| IsWalk(g, start, walk, a) && |walk| == steps + 1;
    assert IsWalk(g, start, walk + [b], b);
  }

  lemma StartWalk(g: Grid, start: Cell)
    ensures WalkOf(g, start, start, 0)
  {
    assert IsWalk(g, start, [start], start);
  }

  // ---------- the search ----------

  /** Every open neighbour of `a` has been given a distance at most one more than that of `a`. */
  ghost predicate Relaxed(g: Grid, dist: map<Cell, nat>, a: Cell) {
    a in dist && forall k: nat | k < 4 && g.Open(Neighbour(a, k)) ::
      Neighbour(a, k) in dist && dist[Neighbour(a, k)] <= dist[a] + 1
  }

  /** Distances come from real walks, and only the drop-off may be closed. */
  ghost predicate Sound(g: Grid, start: Cell, dist: map<Cell, nat>) {
    && start in dist && dist[start] == 0
    && (forall c | c in dist :: WalkOf(g, start, c, dist[c]))
    && (forall c | c in dist :: c == start || g.Open(c))
  }

  /** The queue holds known cells in order of distance, over at most two layers from `low`. */
  ghost predicate Layered(dist: map<Cell, nat>, q: seq<Cell>, low: nat) {
    && (forall i | 0 <= i < |q| :: q[i] in dist && low <= dist[q[i]] <= low + 1)
    && (forall i, j | 0 <= i < j < |q| :: dist[q[i]] <= dist[q[j]])
  }

  /** Cells outside `waiting` are finished, and no farther than the layer being searched. */
  ghost predicate Finished(g: Grid, dist: map<Cell, nat>, waiting: set<Cell>, low: nat) {
    forall c | c in dist && c !in waiting :: dist[c] <= low && Relaxed(g, dist, c)
  }

  ghost function Members(q: seq<Cell>): set<Cell> {
    set c | c in q
  }

  /** Between two moves out of `current`: the first `k` neighbours have been tried. */
  ghost predicate Expanding(g: Grid, start: Cell, dist: map<Cell, nat>, q: seq<Cell>, current: Cell, k: nat) {
    && Sound(g, start, dist)
    && current in dist
    && Layered(dist, q, dist[current])
    && Finished(g, dist, Members(q) + {current}, dist[current])
    && forall j: nat | j < k && j < 4 && g.Open(Neighbour(current, j)) ::
      Neighbour(current, j) in dist && dist[Neighbour(current, j)] <= dist[current] + 1
  }

  lemma DiscoveryKeepsFinished(g: Grid, dist: map<Cell, nat>, waiting: set<Cell>, low: nat, next: Cell, d: nat)
    requires Finished(g, dist, waiting, low) && next !in dist
    ensures Finished(g, dist[next := d], waiting + {next}, low)
  {
    forall c | c in dist && c !in waiting
      ensures Relaxed(g, dist[next := d], c)
    {
      assert Relaxed(g, dist, c);
    }
  }

  lemma DiscoveryKeepsExpanding(g: Grid, start: Cell, dist: map<Cell, nat>, q: seq<Cell>, current: Cell, k: nat,
                                next: Cell)
    requires k < 4 && next == Neighbour(current, k)
    requires Expanding(g, start, dist, q, current, k) && g.Open(next) && next !in dist
    ensures Expanding(g, start, dist[next := dist[current] + 1], q + [next], current, k + 1)
  {
    OffsetsLeadToAdjacentCells(current, next);
    ExtendWalk(g, start, current, dist[current], next);
    DiscoveryKeepsFinished(g, dist, Members(q) + {current}, dist[current], next, dist[current] + 1);
    assert Members(q + [next]) + {current} == Members(q) + {current} + {next};
  }

  /** A neighbour that is closed, or already known, needs no change. */
  lemma SkipKeepsExpanding(g: Grid, start: Cell, dist: map<Cell, nat>, q: seq<Cell>, current: Cell, k: nat)
    requires k < 4 && Expanding(g, start, dist, q, current, k)
    requires !g.Open(Neighbour(current, k)) || Neighbour(current, k) in dist
    ensures Expanding(g, start, dist, q, current, k + 1)
  {
    var next := Neighbour(current, k);
    if next in dist && next !in q && next != current {
      assert next !in Members(q) + {current};
    }
  }

  lemma PopStartsExpanding(g: Grid, start: Cell, dist: map<Cell, nat>, q: seq<Cell>, low: nat)
    requires Sound(g, start, dist) && Layered(dist, q, low) && Finished(g, dist, Members(q), low) && q != []
    ensures Expanding(g, start, dist, q[1..], q[0], 0)
  {
    assert Members(q[1..]) + {q[0]} == Members(q);
  }

  lemma ExpansionFinishes(g: Grid, start: Cell, dist: map<Cell, nat>, q: seq<Cell>, current: Cell)
    requires Expanding(g, start, dist, q, current, 4)
    ensures Finished(g, dist, Members(q), dist[current])
  {
    assert Relaxed(g, dist, current);
  }

  /** A bound on the cells still to be popped: each discovery uses up two units and queues one cell. */
  ghost function Work(g: Grid, start: Cell, dist: map<Cell, nat>, q: seq<Cell>): nat {
    2 * |g.Cells() + {start} - dist.Keys| + |q|
  }

  lemma DiscoveryReducesWork(g: Grid, start: Cell, dist: map<Cell, nat>, q: seq<Cell>, next: Cell, d: nat)
    requires g.Open(next) && next !in dist
    ensures Work(g, start, dist[next := d], q + [next]) < Work(g, start, dist, q)
  {
    var unknown := g.Cells() + {start} - dist.Keys;
    assert next in unknown;
    assert g.Cells() + {start} - dist[next := d].Keys == unknown - {next};
  }

  method DistancesFrom(g: Grid, start: Cell) returns (dist: map<Cell, nat>)
    ensures IsDistanceMap(g, start, dist)
  {
    dist := map[start := 0];
    var q := [start];
    ghost var low: nat := 0;
    StartWalk(g, start);
    while q != []
      invariant Sound(g, start, dist)
      invariant Layered(dist, q, low)
      invariant Finished(g, dist, Members(q), low)
      decreases Work(g, start, dist, q)
    {
      PopStartsExpanding(g, start, dist, q, low);
      var current := q[0];
      q := q[1..];
      ghost var budget := Work(g, start, dist, q);
      for k := 0 to 4
        invariant Expanding(g, start, dist, q, current, k)
        invariant Work(g, start, dist, q) <= budget
      {
        var next := Neighbour(current, k);
        if g.Open(next) && next !in dist {
          DiscoveryKeepsExpanding(g, start, dist, q, current, k, next);
          DiscoveryReducesWork(g, start, dist, q, next, dist[current] + 1);
          dist := dist[next := dist[current] + 1];
          q := q + [next];
        } else {
          SkipKeepsExpanding(g, start, dist, q, current, k);
        }
      }
      ExpansionFinishes(g, start, dist, q, current);
      low := dist[current];
    }
    ClosedMapIsShortest(g, start, dist);
  }

  /** With no cell left to relax, no walk can be shorter than the recorded distance. */
  lemma {:induction false} WalksAreNoShorter(g: Grid, start: Cell, dist: map<Cell, nat>, walk: seq<Cell>, end: Cell)
    requires Sound(g, start, dist)
    requires forall c | c in dist :: Relaxed(g, dist, c)
    requires IsWalk(g, start, walk, end)
    ensures end in dist && dist[end] <= |walk| - 1
    decreases |walk|
  {
    if |walk| > 1 {
      var shorter := walk[..|walk| - 1];
      var previous := walk[|walk| - 2];
      assert IsWalk(g, start, shorter, previous);
      WalksAreNoShorter(g, start, dist, shorter, previous);
      OffsetsLeadToAdjacentCells(previous, end);
      assert Relaxed(g, dist, previous);
    }
  }

  lemma ClosedMapIsShortest(g: Grid, start: Cell, dist: map<Cell, nat>)
    requires Sound(g, start, dist)
    requires forall c | c in dist :: Relaxed(g, dist, c)
    ensures IsDistanceMap(g, start, dist)
  {
    forall c, steps: nat | WalkOf(g, start, c, steps)
      ensures c in dist && dist[c] <= steps
    {
      var walk :| IsWalk(g, start, walk, c) && |walk| == steps + 1;
      WalksAreNoShorter(g, start, dist, walk, c);
    }
  }

  // ---------- consequences for every distance map ----------

  /** There is one distance map: the search order cannot show in the result. */
  lemma DistanceMapIsUnique(g: Grid, start: Cell, d1: map<Cell, nat>, d2: map<Cell, nat>)
    requires IsDistanceMap(g, start, d1) && IsDistanceMap(g, start, d2)
    ensures d1 == d2
  {
    forall c | c in d1
      ensures c in d2 && d1[c] == d2[c]
    {
      assert Shortest(g, start, c, d1[c]) && Shortest(g, start, c, d2[c]);
    }
    assert d1.Keys == d2.Keys;
  }

  lemma MoveChangesManhattanByOne(a: Cell, b: Cell, c: Cell)
    requires Adjacent(b, c)
    ensures Abs(Manhattan(a, b) as int - Manhattan(a, c) as int) == 1
  {
  }

  lemma {:induction false} WalkGeometry(g: Grid, start: Cell, walk: seq<Cell>, end: Cell)
    requires IsWalk(g, start, walk, end)
    ensures Manhattan(start, end) <= |walk| - 1
    ensures (|walk| - 1 - Manhattan(start, end)) % 2 == 0
    decreases |walk|
  {
    if |walk| > 1 {
      var previous := walk[|walk| - 2];
      assert IsWalk(g, start, walk[..|walk| - 1], previous);
      WalkGeometry(g, start, walk[..|walk| - 1], previous);
      assert Adjacent(walk[|walk| - 2], walk[|walk| - 1]);
      MoveChangesManhattanByOne(start, previous, end);
    }
  }

  lemma DistanceGeometry(g: Grid, start: Cell, dist: map<Cell, nat>, c: Cell)
    requires IsDistanceMap(g, start, dist) && c in dist
    ensures Manhattan(start, c) <= dist[c]
    ensures (dist[c] - Manhattan(start, c)) % 2 == 0
  {
    assert Shortest(g, start, c, dist[c]);
    var walk :| IsWalk(g, start, walk, c) && |walk| == dist[c] + 1;
    WalkGeometry(g, start, walk, c);
  }

  lemma NeighbourIsAtMostOneFarther(g: Grid, start: Cell, dist: map<Cell, nat>, a: Cell, b: Cell)
    requires IsDistanceMap(g, start, dist) && a in dist && b in dist && Adjacent(a, b)
    ensures dist[b] <= dist[a] + 1
  {
    assert Shortest(g, start, a, dist[a]) && Shortest(g, start, b, dist[b]);
    if b == start {
      StartWalk(g, start);
    } else {
      var walk :| IsWalk(g, start, walk, b) && |walk| == dist[b] + 1;
      assert g.Open(b);
      ExtendWalk(g, start, a, dist[a], b);
    }
  }

  /** Neighbouring reached cells lie in consecutive layers, even beside a closed drop-off. */
  lemma AdjacentDistancesDifferByOne(g: Grid, start: Cell, dist: map<Cell, nat>, a: Cell, b: Cell)
    requires IsDistanceMap(g, start, dist) && a in dist && b in dist && Adjacent(a, b)
    ensures Abs(dist[a] as int - dist[b] as int) == 1
  {
    NeighbourIsAtMostOneFarther(g, start, dist, a, b);
    NeighbourIsAtMostOneFarther(g, start, dist, b, a);
    DistanceGeometry(g, start, dist, a);
    DistanceGeometry(g, start, dist, b);
  }

  /** The script calls the reached cells walkable; they all are exactly when the drop-off is. */
  lemma ReachedCellsAreOpenIffStartIs(g: Grid, start: Cell, dist: map<Cell, nat>)
    requires IsDistanceMap(g, start, dist)
    ensures (forall c | c in dist :: 0 <= c.x < g.width && 0 <= c.y < g.height && c !in g.walls) <==>
              0 <= start.x < g.width && 0 <= start.y < g.height && start !in g.walls
  {
    StartWalk(g, start);
    assert start in dist;
    forall c | c in dist && c != start
      ensures g.Open(c)
    {
      assert Reachable(g, start, c);
      var steps: nat :| WalkOf(g, start, c, steps);
      var walk :| IsWalk(g, start, walk, c) && |walk| == steps + 1;
    }
  }

  // ---------- nearest access cell of an item ----------

  /** `n` is the fewest moves after which some walk stands next to `item`. */
  ghost predicate NearestAccess(g: Grid, start: Cell, item: Cell, n: nat) {
    && (exists c | Adjacent(item, c) :: WalkOf(g, start, c, n))
    && forall c, steps | Adjacent(item, c) && WalkOf(g, start, c, steps) :: n <= steps
  }

  function Least(values: seq<nat>): (least: nat)
    requires values != []
    ensures least in values
    ensures forall v | v in values :: least <= v
  {
    if |values| == 1 then values[0]
    else
      var rest := Least(values[1..]);
      assert values == [values[0]] + values[1..];
      if values[0] <= rest then values[0] else rest
  }

  /** The walk length to the nearest access cell, or -1 when no cell beside the item is reachable. */
  method ItemDistance(ghost g: Grid, ghost start: Cell, dist: map<Cell, nat>, item: Cell) returns (minDist: int)
    requires IsDistanceMap(g, start, dist)
    ensures minDist == -1 <==> forall c | Adjacent(item, c) :: !Reachable(g, start, c)
    ensures minDist >= -1
    ensures minDist != -1 ==> NearestAccess(g, start, item, minDist)
  {
    var adjDists: seq<nat> := [];
    for k := 0 to 4
      invariant forall d | d in adjDists :: exists j: nat | j < k ::
          Neighbour(item, j) in dist && dist[Neighbour(item, j)] == d
      invariant forall j: nat | j < k && Neighbour(item, j) in dist :: dist[Neighbour(item, j)] in adjDists
    {
      var next := Neighbour(item, k);
      if next in dist {
        adjDists := adjDists + [dist[next]];
        assert dist[next] == adjDists[|adjDists| - 1];
      }
    }
    forall c
      ensures Adjacent(item, c) <==> exists k: nat | k < 4 :: c == Neighbour(item, k)
    {
      OffsetsLeadToAdjacentCells(item, c);
    }
    if adjDists == [] {
      return -1;
    }
    minDist := Least(adjDists);
    var j: nat :| j < 4 && Neighbour(item, j) in dist && dist[Neighbour(item, j)] == minDist;
    assert Adjacent(item, Neighbour(item, j));
    assert Shortest(g, start, Neighbour(item, j), minDist);
    forall c, steps | Adjacent(item, c) && WalkOf(g, start, c, steps)
      ensures minDist <= steps
    {
      assert Reachable(g, start, c);
      assert Shortest(g, start, c, dist[c]);
    }
  }

  /** Whatever the item, its distance is the Manhattan distance at best, less the step onto it. */
  lemma NearestAccessGeometry(g: Grid, start: Cell, item: Cell, n: nat)
    requires NearestAccess(g, start, item, n)
    ensures Manhattan(start, item) <= n + 1
    ensures (n + 1 - Manhattan(start, item)) % 2 == 0
  {
    var c :| Adjacent(item, c) && WalkOf(g, start, c, n);
    var walk :| IsWalk(g, start, walk, c) && |walk| == n + 1;
    WalkGeometry(g, start, walk, c);
    MoveChangesManhattanByOne(start, c, item);
  }
}
