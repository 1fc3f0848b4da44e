/**
 * Grid search of src/logic/pathfinding.ts: A* (`findPath`) and breadth-first
 * search (`findPathBfs`) over 4-connected cells, with the helpers they share.
 *
 * A search problem fixes the grid (only its width and height are read), the
 * walkability predicate, the start and the goal. A move goes to an adjacent
 * cell inside the grid that is walkable or is the goal itself.
 */
module Pathfinding {

  import opened Grid
  import opened Numbers

  datatype Point = Point(x: int, y: int)

  predicate InGrid(g: GridState, p: Point)
  {
    g.InBounds(p.x, p.y)
  }

  /** `heuristic`: the Manhattan distance between two cells. */
  function Heuristic(a: Point, b: Point): nat
  {
    Abs(a.x - b.x) + Abs(a.y - b.y)
  }

  /** Two cells are neighbours when they are one unit step apart. */
  predicate Adjacent(p: Point, q: Point)
  {
    Heuristic(p, q) == 1
  }

  /**
   * The Manhattan distance is consistent: one move changes it by at most one,
   * and it is zero exactly at the goal.
   */
  lemma HeuristicIsConsistent(p: Point, q: Point, goal: Point)
    requires Adjacent(p, q)
    ensures Heuristic(p, goal) <= Heuristic(q, goal) + 1
    ensures Heuristic(q, goal) <= Heuristic(p, goal) + 1
    ensures Heuristic(goal, goal) == 0 && (Heuristic(p, goal) == 0 <==> p == goal)
  {
  }

  /** `indexOf`: the row-major cell index. */
  function IndexOf(g: GridState, x: int, y: int): int
  {
    y * g.width + x
  }

  /** `pointOf`: the cell of a (non-negative) cell index. */
  function PointOf(g: GridState, idx: int): Point
    requires 0 < g.width && 0 <= idx
  {
    Point(idx % g.width, idx / g.width)
  }

  /** Every in-grid cell has an index in range, and `pointOf` recovers the cell from it. */
  lemma PointOfIndexOf(g: GridState, p: Point)
    requires InGrid(g, p)
    ensures 0 <= IndexOf(g, p.x, p.y) < g.width * g.height
    ensures PointOf(g, IndexOf(g, p.x, p.y)) == p
  {
    GridIndexInRange(g, p.x, p.y);
  }

  /** Every index in range names an in-grid cell, and `indexOf` recovers the index from it. */
  lemma IndexOfPointOf(g: GridState, idx: int)
    requires 0 <= idx < g.width * g.height
    requires 0 <= g.width && 0 <= g.height
    ensures 0 < g.width && InGrid(g, PointOf(g, idx))
    ensures IndexOf(g, PointOf(g, idx).x, PointOf(g, idx).y) == idx
  {
    if g.width == 0 {
      assert false;
    }
    var w := g.width;
    var q, r := idx / w, idx % w;
    assert idx == q * w + r;
    if q >= g.height {
      MulMonotone(g.height, q, w);
      assert false;
    }
    if q < 0 {
      MulMonotone(q, -1, w);
      assert false;
    }
  }

  /** The four candidate neighbours of `neighborPoints`, in the order it tries them. */
  function Candidates(x: int, y: int): seq<Point>
  {
    [Point(x + 1, y), Point(x - 1, y), Point(x, y + 1), Point(x, y - 1)]
  }

  /** The candidates that lie inside the grid, in their original order. */
  function InGridOnly(g: GridState, cs: seq<Point>): seq<Point>
  {
    if cs == [] then []
    else if InGrid(g, cs[0]) then [cs[0]] + InGridOnly(g, cs[1..])
    else InGridOnly(g, cs[1..])
  }

  lemma {:induction false} InGridOnlyMembers(g: GridState, cs: seq<Point>)
    ensures forall q :: q in InGridOnly(g, cs) <==> q in cs && InGrid(g, q)
  {
    if cs != [] {
      InGridOnlyMembers(g, cs[1..]);
      assert cs == [cs[0]] + cs[1..];
    }
  }

  /** The candidates are exactly the cells adjacent to `(x, y)`. */
  lemma CandidatesAreAdjacent(x: int, y: int)
    ensures forall q :: q in Candidates(x, y) <==> Adjacent(Point(x, y), q)
  {
    forall q | Adjacent(Point(x, y), q)
      ensures q in Candidates(x, y)
    {
      if q.x == x + 1 { assert q == Candidates(x, y)[0]; }
      else if q.x == x - 1 { assert q == Candidates(x, y)[1]; }
      else if q.y == y + 1 { assert q == Candidates(x, y)[2]; }
      else { assert q == Candidates(x, y)[3]; }
    }
  }

  /**
   * `neighborPoints`: the adjacent cells inside the grid, in the order
   * `+x, -x, +y, -y`; a cell is listed exactly when it is an in-grid neighbour.
   */
  method NeighborPoints(g: GridState, x: int, y: int) returns (points: seq<Point>)
    ensures points == InGridOnly(g, Candidates(x, y))
    ensures forall q :: q in points <==> InGrid(g, q) && Adjacent(Point(x, y), q)
  {
    var candidates := Candidates(x, y);
    points := [];
    var i := 0;
    while i < |candidates|
      invariant 0 <= i <= |candidates|
      invariant points + InGridOnly(g, candidates[i..]) == InGridOnly(g, candidates)
    {
      var pt := candidates[i];
      assert candidates[i..] == [pt] + candidates[i + 1..];
      if pt.x < 0 || pt.y < 0 || pt.x >= g.width || pt.y >= g.height {
        i := i + 1;
        continue;
      }
      points := points + [pt];
      i := i + 1;
    }
    assert candidates[i..] == [];
    InGridOnlyMembers(g, candidates);
    CandidatesAreAdjacent(x, y);
  }

  /**
   * `lowestF`: the first entry of the open set, in insertion order, whose f
   * score is strictly the smallest; entries without a score count as
   * infinite, and `-1` comes back when no entry has a score.
   */
  method LowestF(openSet: seq<int>, fScore: map<int, int>) returns (lowest: int)
    ensures (forall i :: 0 <= i < |openSet| ==> openSet[i] !in fScore) ==> lowest == -1
    ensures (exists i :: 0 <= i < |openSet| && openSet[i] in fScore) ==>
      && lowest in fScore
      && (forall i :: 0 <= i < |openSet| && openSet[i] in fScore ==> fScore[lowest] <= fScore[openSet[i]])
      && (exists k :: 0 <= k < |openSet| && openSet[k] == lowest
            && forall i :: 0 <= i < k && openSet[i] in fScore ==> fScore[lowest] < fScore[openSet[i]])
  {
    lowest := -1;
    var found := false;
    var lowestValue := 0;
    ghost var at := 0;
    var i := 0;
    while i < |openSet|
      invariant 0 <= i <= |openSet|
      invariant !found <==> forall j :: 0 <= j < i ==> openSet[j] !in fScore
      invariant !found ==> lowest == -1
      invariant found ==> 0 <= at < i && openSet[at] == lowest && lowest in fScore && fScore[lowest] == lowestValue
      invariant found ==> forall j :: 0 <= j < i && openSet[j] in fScore ==> lowestValue <= fScore[openSet[j]]
      invariant found ==> forall j :: 0 <= j < at && openSet[j] in fScore ==> lowestValue < fScore[openSet[j]]
    {
      var idx := openSet[i];
      if idx in fScore && (!found || fScore[idx] < lowestValue) {
        lowestValue := fScore[idx];
        lowest := idx;
        found := true;
        at := i;
      }
      i := i + 1;
    }
  }

  /**
   * `reconstructPath`: follows `cameFrom` back from `current` to a cell with
   * no predecessor and lists the cells from there to `current`. `rank` is a
   * proof-only measure that strictly grows along every recorded link (the g
   * score in A*, the depth in BFS); it shows the walk back terminates.
   * The path is built by prepending, which yields the same list as pushing
   * and reversing at the end.
   */
  method ReconstructPath(g: GridState, cameFrom: map<int, int>, current: int, ghost rank: map<int, nat>)
    returns (path: seq<Point>, ghost chain: seq<int>)
    requires 0 < g.width && 0 <= current && current in rank
    requires forall k :: k in cameFrom ==> k in rank && cameFrom[k] in rank && 0 <= cameFrom[k] && rank[cameFrom[k]] < rank[k]
    ensures |chain| >= 1 && chain[|chain| - 1] == current && chain[0] !in cameFrom
    ensures forall i :: 0 <= i < |chain| ==> 0 <= chain[i] && chain[i] in rank
    ensures forall i :: 1 <= i < |chain| ==> chain[i] in cameFrom && cameFrom[chain[i]] == chain[i - 1]
    ensures |path| == |chain| && forall i :: 0 <= i < |path| ==> path[i] == PointOf(g, chain[i])
    ensures (forall k :: k in cameFrom ==> rank[k] == rank[cameFrom[k]] + 1) ==>
      |chain| + rank[chain[0]] == rank[current] + 1
  {
    path := [PointOf(g, current)];
    chain := [current];
    var cur := current;
    while cur in cameFrom
      invariant |chain| >= 1 && chain[0] == cur && chain[|chain| - 1] == current
      invariant forall i :: 0 <= i < |chain| ==> 0 <= chain[i] && chain[i] in rank
      invariant forall i :: 1 <= i < |chain| ==> chain[i] in cameFrom && cameFrom[chain[i]] == chain[i - 1]
      invariant |path| == |chain| && forall i :: 0 <= i < |path| ==> path[i] == PointOf(g, chain[i])
      invariant (forall k :: k in cameFrom ==> rank[k] == rank[cameFrom[k]] + 1) ==>
        |chain| + rank[cur] == rank[current] + 1
      decreases rank[cur]
    {
      cur := cameFrom[cur];
      path := [PointOf(g, cur)] + path;
      chain := [cur] + chain;
    }
  }

  /** A search problem: grid, walkability, start and goal. */
  datatype Problem = Problem(g: GridState, canWalk: (int, int) -> bool, start: Point, goal: Point)
  {
    /** Both end points lie inside the grid, as they do for every caller. */
    ghost predicate WellFormed()
    {
      InGrid(g, start) && InGrid(g, goal)
    }

    function Cells(): int { g.width * g.height }

    function StartIdx(): int { IndexOf(g, start.x, start.y) }

    function GoalIdx(): int { IndexOf(g, goal.x, goal.y) }

    /** One legal move: into an adjacent in-grid cell that is walkable or is the goal. */
    predicate Step(p: Point, q: Point)
    {
      InGrid(g, q) && Adjacent(p, q) && (canWalk(q.x, q.y) || q == goal)
    }

    /** A walk from the start made of legal moves. */
    ghost predicate Walk(path: seq<Point>)
    {
      && |path| >= 1
      && path[0] == start
      && forall i :: 0 <= i < |path| - 1 ==> Step(path[i], path[i + 1])
    }

    /** A walk from the start that ends at the goal. */
    ghost predicate ValidPath(path: seq<Point>)
    {
      Walk(path) && path[|path| - 1] == goal
    }

    /** A legal move between cell indices. */
    ghost predicate Edge(u: int, v: int)
    {
      0 < g.width && 0 <= u < Cells() && 0 <= v < Cells() && Step(PointOf(g, u), PointOf(g, v))
    }

    /** The index of a walk's last cell. */
    function EndIdx(path: seq<Point>): int
      requires |path| >= 1
    {
      IndexOf(g, path[|path| - 1].x, path[|path| - 1].y)
    }
  }

  /** Every cell of a walk lies in the grid; dropping its last cell leaves a walk. */
  lemma WalkPrefix(P: Problem, path: seq<Point>)
    requires P.WellFormed() && P.Walk(path)
    ensures InGrid(P.g, path[|path| - 1])
    ensures 0 <= P.EndIdx(path) < P.Cells()
    ensures |path| > 1 ==> P.Walk(path[..|path| - 1]) && P.Edge(P.EndIdx(path[..|path| - 1]), P.EndIdx(path))
  {
    var n := |path|;
    if n > 1 {
      var prefix := path[..n - 1];
      assert forall i :: 0 <= i < |prefix| - 1 ==> P.Step(prefix[i], prefix[i + 1]) by {
        forall i | 0 <= i < |prefix| - 1 ensures P.Step(prefix[i], prefix[i + 1]) {
          assert prefix[i] == path[i] && prefix[i + 1] == path[i + 1];
        }
      }
      var p, q := path[n - 2], path[n - 1];
      assert P.Step(p, q);
      if n > 2 {
        assert P.Step(path[n - 3], p);
      }
      PointOfIndexOf(P.g, p);
      PointOfIndexOf(P.g, q);
    } else {
      PointOfIndexOf(P.g, path[0]);
    }
  }

  /** A set of cells holding the start and closed under legal moves holds the end of every walk. */
  lemma {:induction false} ClosedSetHoldsWalk(P: Problem, S: set<int>, path: seq<Point>)
    requires P.WellFormed() && P.Walk(path)
    requires P.StartIdx() in S
    requires forall u, v :: u in S && P.Edge(u, v) ==> v in S
    ensures P.EndIdx(path) in S
  {
    WalkPrefix(P, path);
    if |path| > 1 {
      ClosedSetHoldsWalk(P, S, path[..|path| - 1]);
    }
  }

  /** A chain of legal moves between indices, from the start index to the goal index, is a valid path. */
  lemma ChainIsValidPath(P: Problem, chain: seq<int>, path: seq<Point>)
    requires P.WellFormed()
    requires |chain| >= 1 && chain[0] == P.StartIdx() && chain[|chain| - 1] == P.GoalIdx()
    requires forall i :: 1 <= i < |chain| ==> P.Edge(chain[i - 1], chain[i])
    requires |path| == |chain| && forall i :: 0 <= i < |path| ==> 0 <= chain[i] && path[i] == PointOf(P.g, chain[i])
    ensures P.ValidPath(path)
  {
    PointOfIndexOf(P.g, P.start);
    PointOfIndexOf(P.g, P.goal);
    forall i | 0 <= i < |path| - 1
      ensures P.Step(path[i], path[i + 1])
    {
      assert P.Edge(chain[i], chain[i + 1]);
    }
  }

  /** A set of cells closed under moves and containing the start, but not the goal, rules out every path. */
  lemma NoPathOutsideClosedSet(P: Problem, S: set<int>)
    requires P.WellFormed()
    requires P.StartIdx() in S && P.GoalIdx() !in S
    requires forall u, v :: u in S && P.Edge(u, v) ==> v in S
    ensures forall path :: !P.ValidPath(path)
  {
    forall path | P.ValidPath(path)
      ensures false
    {
      ClosedSetHoldsWalk(P, S, path);
    }
  }

  /** An in-grid neighbour that is walkable or is the goal is one move away. */
  lemma NeighborIsEdge(P: Problem, current: int, q: Point)
    requires P.WellFormed() && 0 <= current < P.Cells()
    requires InGrid(P.g, q) && Adjacent(PointOf(P.g, current), q)
    requires P.canWalk(q.x, q.y) || IndexOf(P.g, q.x, q.y) == P.GoalIdx()
    ensures P.Edge(current, IndexOf(P.g, q.x, q.y))
  {
    PointOfIndexOf(P.g, q);
    PointOfIndexOf(P.g, P.goal);
  }

  /** All cell indices of the grid. */
  function AllCells(P: Problem): set<int>
  {
    Range(P.Cells())
  }

  function Range(n: int): set<int>
    decreases n
  {
    if n <= 0 then {} else Range(n - 1) + {n - 1}
  }

  lemma {:induction false} RangeMembers(n: int)
    ensures forall i :: i in Range(n) <==> 0 <= i < n
    decreases n
  {
    if n > 0 {
      RangeMembers(n - 1);
    }
  }

  /** Visiting more cells of the grid shrinks the set of unvisited cells. */
  lemma UnvisitedShrinks(P: Problem, visited: set<int>, visited': set<int>)
    requires visited <= visited'
    requires forall v :: v in visited' ==> 0 <= v < P.Cells()
    ensures AllCells(P) - visited' <= AllCells(P) - visited
    ensures visited' != visited ==> AllCells(P) - visited' != AllCells(P) - visited
  {
    RangeMembers(P.Cells());
    if AllCells(P) - visited' == AllCells(P) - visited {
      forall v | v in visited'
        ensures v in visited
      {
        assert v in AllCells(P);
        assert (v in AllCells(P) - visited') == (v in AllCells(P) - visited);
      }
    }
  }

  /**
   * What `findPathBfs` keeps true between steps. `dist` is each visited
   * cell's depth in the search tree and `level` the depth being expanded;
   * both exist only for the proof. `pending` is the cell being expanded,
   * whose neighbours are not all visited yet (`-1` between expansions).
   * The last two clauses carry optimality: every walk of at most `level`
   * moves ends at a visited cell, and no walk reaches a visited cell in
   * fewer moves than its depth.
   */
  ghost predicate BfsInv(P: Problem, queue: seq<int>, visited: set<int>, cameFrom: map<int, int>,
                         dist: map<int, nat>, level: nat, pending: int)
  {
    && P.WellFormed()
    && P.StartIdx() in visited
    && (forall v :: v in visited ==> 0 <= v < P.Cells())
    && dist.Keys == visited
    && dist[P.StartIdx()] == 0
    && cameFrom.Keys == visited - {P.StartIdx()}
    && (forall v {:trigger cameFrom[v]} :: v in cameFrom ==>
          cameFrom[v] in visited && dist[v] == dist[cameFrom[v]] + 1 && P.Edge(cameFrom[v], v))
    && (forall i, j :: 0 <= i < j < |queue| ==> queue[i] != queue[j])
    && (forall i :: 0 <= i < |queue| ==> queue[i] in visited && level <= dist[queue[i]] <= level + 1)
    && (forall i, j :: 0 <= i < j < |queue| ==> dist[queue[i]] <= dist[queue[j]])
    && (forall v :: v in visited && v !in queue ==> dist[v] <= level)
    && (forall v, w {:trigger P.Edge(v, w)} :: v in visited && v !in queue && v != pending && P.Edge(v, w) ==> w in visited)
    && (P.GoalIdx() in visited ==> P.GoalIdx() in queue)
    && (forall path :: P.Walk(path) && |path| - 1 <= level ==> P.EndIdx(path) in visited)
    && (forall path :: P.Walk(path) && P.EndIdx(path) in visited ==> dist[P.EndIdx(path)] <= |path| - 1)
  }

  lemma BfsInitial(P: Problem)
    requires P.WellFormed() && P.StartIdx() != P.GoalIdx()
    ensures BfsInv(P, [P.StartIdx()], {P.StartIdx()}, map[], map[P.StartIdx() := 0], 0, -1)
  {
    PointOfIndexOf(P.g, P.start);
  }

  /** Once the front of the queue is one level deeper, every walk one move longer ends at a visited cell. */
  lemma BfsLevelUp(P: Problem, queue: seq<int>, visited: set<int>, cameFrom: map<int, int>,
                   dist: map<int, nat>, level: nat)
    requires BfsInv(P, queue, visited, cameFrom, dist, level, -1)
    requires |queue| > 0 && dist[queue[0]] == level + 1
    ensures BfsInv(P, queue, visited, cameFrom, dist, level + 1, -1)
  {
    assert forall i :: 0 <= i < |queue| ==> dist[queue[i]] == level + 1 by {
      forall i | 0 < i < |queue| ensures dist[queue[i]] == level + 1 {
        assert dist[queue[0]] <= dist[queue[i]];
      }
    }
    forall path | P.Walk(path) && |path| - 1 == level + 1
      ensures P.EndIdx(path) in visited
    {
      WalkPrefix(P, path);
      var prefix := path[..|path| - 1];
      var u := P.EndIdx(prefix);
      assert u in visited && dist[u] <= level;
      assert u !in queue;
    }
  }

  /** Taking the front cell off the queue to expand it. */
  lemma BfsDequeue(P: Problem, queue: seq<int>, visited: set<int>, cameFrom: map<int, int>,
                   dist: map<int, nat>, level: nat)
    requires BfsInv(P, queue, visited, cameFrom, dist, level, -1)
    requires |queue| > 0 && dist[queue[0]] == level && queue[0] != P.GoalIdx()
    ensures BfsInv(P, queue[1..], visited, cameFrom, dist, level, queue[0])
  {
    assert forall v :: v in queue[1..] ==> v in queue;
    assert forall v :: v in queue && v != queue[0] ==> v in queue[1..] by {
      forall v | v in queue && v != queue[0] ensures v in queue[1..] {
        var i :| 0 <= i < |queue| && queue[i] == v;
        assert queue[1..][i - 1] == v;
      }
    }
  }

  /** Dequeuing the front cell, first moving to the next level when the front is one level deeper. */
  lemma BfsTakeFront(P: Problem, queue: seq<int>, visited: set<int>, cameFrom: map<int, int>,
                     dist: map<int, nat>, level: nat) returns (level': nat)
    requires BfsInv(P, queue, visited, cameFrom, dist, level, -1)
    requires |queue| > 0 && queue[0] != P.GoalIdx()
    ensures level' == dist[queue[0]]
    ensures BfsInv(P, queue[1..], visited, cameFrom, dist, level', queue[0])
  {
    level' := level;
    if dist[queue[0]] == level + 1 {
      BfsLevelUp(P, queue, visited, cameFrom, dist, level);
      level' := level + 1;
    }
    BfsDequeue(P, queue, visited, cameFrom, dist, level');
  }

  /** Visiting a new neighbour of the cell being expanded. */
  lemma BfsDiscover(P: Problem, queue: seq<int>, visited: set<int>, cameFrom: map<int, int>,
                    dist: map<int, nat>, level: nat, current: int, idx: int)
    requires BfsInv(P, queue, visited, cameFrom, dist, level, current)
    requires current in visited && current !in queue && dist[current] == level
    requires idx !in visited && P.Edge(current, idx)
    ensures BfsInv(P, queue + [idx], visited + {idx}, cameFrom[idx := current], dist[idx := level + 1], level, current)
  {
    var visited', dist' := visited + {idx}, dist[idx := level + 1];
    forall path | P.Walk(path) && P.EndIdx(path) in visited'
      ensures dist'[P.EndIdx(path)] <= |path| - 1
    {
      if P.EndIdx(path) == idx && |path| - 1 <= level {
        assert false;
      }
    }
  }

  /** A neighbour that may be entered has been visited. */
  ghost predicate Handled(P: Problem, visited: set<int>, q: Point)
  {
    (P.canWalk(q.x, q.y) || IndexOf(P.g, q.x, q.y) == P.GoalIdx()) ==> IndexOf(P.g, q.x, q.y) in visited
  }

  /** Handling neighbour `j` extends the handled prefix by one. */
  lemma HandledNext(P: Problem, visited: set<int>, visited': set<int>, nbrs: seq<Point>, j: int)
    requires 0 <= j < |nbrs| && visited <= visited'
    requires forall q :: q in nbrs[..j] ==> Handled(P, visited, q)
    requires Handled(P, visited', nbrs[j])
    ensures forall q :: q in nbrs[..j + 1] ==> Handled(P, visited', q)
  {
    assert nbrs[..j + 1] == nbrs[..j] + [nbrs[j]];
  }

  /** After every in-grid neighbour of `current` has been handled, `current` is closed under moves. */
  lemma BfsExpanded(P: Problem, queue: seq<int>, visited: set<int>, cameFrom: map<int, int>,
                    dist: map<int, nat>, level: nat, current: int, nbrs: seq<Point>)
    requires BfsInv(P, queue, visited, cameFrom, dist, level, current)
    requires current in visited && current !in queue && dist[current] == level
    requires forall q :: q in nbrs <==> InGrid(P.g, q) && Adjacent(PointOf(P.g, current), q)
    requires forall q :: q in nbrs[..|nbrs|] ==> Handled(P, visited, q)
    ensures BfsInv(P, queue, visited, cameFrom, dist, level, -1)
  {
    assert nbrs[..|nbrs|] == nbrs;
    forall w | P.Edge(current, w)
      ensures w in visited
    {
      IndexOfPointOf(P.g, w);
      PointOfIndexOf(P.g, P.goal);
      var q := PointOf(P.g, w);
      assert q in nbrs && Handled(P, visited, q);
    }
  }

  /**
   * The path rebuilt when the goal leaves the queue is valid and no valid
   * path is shorter.
   */
  lemma BfsFoundShortest(P: Problem, visited: set<int>, cameFrom: map<int, int>, dist: map<int, nat>,
                         level: nat, queue: seq<int>, chain: seq<int>, path: seq<Point>)
    requires BfsInv(P, queue, visited, cameFrom, dist, level, -1)
    requires P.GoalIdx() in visited
    requires |chain| >= 1 && chain[|chain| - 1] == P.GoalIdx() && chain[0] !in cameFrom
    requires forall i :: 0 <= i < |chain| ==> 0 <= chain[i] && chain[i] in dist
    requires forall i :: 1 <= i < |chain| ==> chain[i] in cameFrom && cameFrom[chain[i]] == chain[i - 1]
    requires |path| == |chain| && forall i :: 0 <= i < |path| ==> path[i] == PointOf(P.g, chain[i])
    requires |chain| + dist[chain[0]] == dist[P.GoalIdx()] + 1
    ensures P.ValidPath(path)
    ensures forall p :: P.ValidPath(p) ==> |path| <= |p|
  {
    assert chain[0] == P.StartIdx();
    ChainIsValidPath(P, chain, path);
    forall p | P.ValidPath(p)
      ensures |path| <= |p|
    {
      PointOfIndexOf(P.g, P.goal);
      assert P.EndIdx(p) == P.GoalIdx();
    }
  }

  /** The state of the BFS while `current`, taken from the queue at the current level, is being expanded. */
  ghost predicate Expanding(P: Problem, queue: seq<int>, visited: set<int>, cameFrom: map<int, int>,
                            dist: map<int, nat>, level: nat, current: int)
  {
    BfsInv(P, queue, visited, cameFrom, dist, level, current) &&
    current in visited && current !in queue && dist[current] == level
  }

  /** One neighbour of the BFS inner loop: a new cell that may be entered is visited and queued. */
  method BfsVisit(g: GridState, canWalk: (int, int) -> bool, goalIdx: int, ghost P: Problem,
                  current: int, neighbor: Point, queue: seq<int>, visited: set<int>,
                  cameFrom: map<int, int>, ghost dist: map<int, nat>, ghost level: nat)
    returns (queue': seq<int>, visited': set<int>, cameFrom': map<int, int>, ghost dist': map<int, nat>)
    requires P.g == g && P.canWalk == canWalk && goalIdx == P.GoalIdx()
    requires Expanding(P, queue, visited, cameFrom, dist, level, current)
    requires InGrid(g, neighbor) && Adjacent(PointOf(g, current), neighbor)
    ensures Expanding(P, queue', visited', cameFrom', dist', level, current)
    ensures Handled(P, visited', neighbor)
    ensures visited <= visited'
    ensures visited' == visited ==> queue' == queue
  {
    queue', visited', cameFrom', dist' := queue, visited, cameFrom, dist;
    var neighborIdx := IndexOf(g, neighbor.x, neighbor.y);
    if neighborIdx in visited || (!canWalk(neighbor.x, neighbor.y) && neighborIdx != goalIdx) {
      return;
    }
    NeighborIsEdge(P, current, neighbor);
    BfsDiscover(P, queue, visited, cameFrom, dist, level, current, neighborIdx);
    visited' := visited + {neighborIdx};
    cameFrom' := cameFrom[neighborIdx := current];
    dist' := dist[neighborIdx := level + 1];
    queue' := queue + [neighborIdx];
  }

  /**
   * The inner loop of `findPathBfs`: every in-grid neighbour of `current`
   * not yet visited that is walkable or the goal is visited, gets
   * `current` as predecessor, and joins the back of the queue.
   */
  method BfsVisitNeighbors(g: GridState, canWalk: (int, int) -> bool, goalIdx: int, ghost P: Problem,
                           current: int, queue: seq<int>, visited: set<int>,
                           cameFrom: map<int, int>, ghost dist: map<int, nat>, ghost level: nat)
    returns (queue': seq<int>, visited': set<int>, cameFrom': map<int, int>, ghost dist': map<int, nat>)
    requires P.g == g && P.canWalk == canWalk && goalIdx == P.GoalIdx()
    requires BfsInv(P, queue, visited, cameFrom, dist, level, current)
    requires current in visited && current !in queue && dist[current] == level
    ensures BfsInv(P, queue', visited', cameFrom', dist', level, -1)
    ensures visited <= visited'
    ensures visited' == visited ==> queue' == queue
  {
    var cp := PointOf(g, current);
    var nbrs := NeighborPoints(g, cp.x, cp.y);
    queue', visited', cameFrom', dist' := queue, visited, cameFrom, dist;
    var j := 0;
    while j < |nbrs|
      invariant 0 <= j <= |nbrs|
      invariant Expanding(P, queue', visited', cameFrom', dist', level, current)
      invariant forall q :: q in nbrs[..j] ==> Handled(P, visited', q)
      invariant visited <= visited'
      invariant visited' == visited ==> queue' == queue
    {
      ghost var before := visited';
      assert nbrs[j] in nbrs;
      queue', visited', cameFrom', dist' := BfsVisit(g, canWalk, goalIdx, P, current, nbrs[j], queue', visited', cameFrom', dist', level);
      HandledNext(P, before, visited', nbrs, j);
      j := j + 1;
    }
    BfsExpanded(P, queue', visited', cameFrom', dist', level, current, nbrs);
  }

  /**
   * `findPathBfs`: a shortest valid path from start to goal, or the empty
   * list exactly when no valid path exists. When start and goal coincide
   * the answer is the one-cell path.
   */
  method FindPathBfs(g: GridState, start: Point, goal: Point, canWalk: (int, int) -> bool)
    returns (path: seq<Point>)
    requires InGrid(g, start) && InGrid(g, goal)
    ensures start == goal ==> path == [start]
    ensures path != [] ==> Problem(g, canWalk, start, goal).ValidPath(path)
    ensures path == [] ==> forall p :: !Problem(g, canWalk, start, goal).ValidPath(p)
    ensures forall p :: Problem(g, canWalk, start, goal).ValidPath(p) ==> |path| <= |p|
  {
    ghost var P := Problem(g, canWalk, start, goal);
    var startIdx := IndexOf(g, start.x, start.y);
    var goalIdx := IndexOf(g, goal.x, goal.y);
    PointOfIndexOf(g, start);
    PointOfIndexOf(g, goal);
    if startIdx == goalIdx {
      path := [start];
      assert P.ValidPath(path);
      return;
    }

    path := BfsSearch(g, canWalk, startIdx, goalIdx, P);
  }

  /** The goal has reached the front of the queue: its predecessor chain is the answer. */
  method BfsFound(g: GridState, ghost P: Problem, queue: seq<int>, visited: set<int>, cameFrom: map<int, int>,
                  ghost dist: map<int, nat>, ghost level: nat)
    returns (path: seq<Point>)
    requires P.g == g && BfsInv(P, queue, visited, cameFrom, dist, level, -1)
    requires |queue| > 0 && queue[0] == P.GoalIdx()
    ensures P.ValidPath(path)
    ensures forall p :: P.ValidPath(p) ==> |path| <= |p|
  {
    ghost var chain;
    path, chain := ReconstructPath(g, cameFrom, queue[0], dist);
    BfsFoundShortest(P, visited, cameFrom, dist, level, queue, chain, path);
  }

  /** One turn of the `findPathBfs` loop when the front of the queue is not the goal. */
  method BfsStep(g: GridState, canWalk: (int, int) -> bool, goalIdx: int, ghost P: Problem,
                 queue: seq<int>, visited: set<int>, cameFrom: map<int, int>, ghost dist: map<int, nat>, ghost level: nat)
    returns (queue': seq<int>, visited': set<int>, cameFrom': map<int, int>, ghost dist': map<int, nat>, ghost level': nat)
    requires P.g == g && P.canWalk == canWalk && goalIdx == P.GoalIdx()
    requires BfsInv(P, queue, visited, cameFrom, dist, level, -1)
    requires |queue| > 0 && queue[0] != goalIdx
    ensures BfsInv(P, queue', visited', cameFrom', dist', level', -1)
    ensures AllCells(P) - visited' < AllCells(P) - visited || (visited' == visited && |queue'| < |queue|)
  {
    var current := queue[0];
    level' := BfsTakeFront(P, queue, visited, cameFrom, dist, level);
    queue', visited', cameFrom', dist' := BfsVisitNeighbors(g, canWalk, goalIdx, P, current, queue[1..], visited, cameFrom, dist, level');
    UnvisitedShrinks(P, visited, visited');
  }

  /** The search loop of `findPathBfs`, for a start other than the goal. */
  method BfsSearch(g: GridState, canWalk: (int, int) -> bool, startIdx: int, goalIdx: int, ghost P: Problem)
    returns (path: seq<Point>)
    requires P.g == g && P.canWalk == canWalk && P.WellFormed()
    requires startIdx == P.StartIdx() && goalIdx == P.GoalIdx() && startIdx != goalIdx
    ensures path != [] ==> P.ValidPath(path)
    ensures path == [] ==> forall p :: !P.ValidPath(p)
    ensures forall p :: P.ValidPath(p) ==> |path| <= |p|
  {
    var queue := [startIdx];
    var visited := {startIdx};
    var cameFrom: map<int, int> := map[];
    ghost var dist: map<int, nat> := map[startIdx := 0];
    ghost var level: nat := 0;
    BfsInitial(P);

    while |queue| > 0
      invariant BfsInv(P, queue, visited, cameFrom, dist, level, -1)
      decreases AllCells(P) - visited, |queue|
    {
      if queue[0] == goalIdx {
        path := BfsFound(g, P, queue, visited, cameFrom, dist, level);
        return;
      }
      queue, visited, cameFrom, dist, level := BfsStep(g, canWalk, goalIdx, P, queue, visited, cameFrom, dist, level);
    }

    NoPathOutsideClosedSet(P, visited);
    path := [];
  }

  /** No entry occurs twice. */
  ghost predicate Distinct(s: seq<int>)
  {
    forall i, j :: 0 <= i < j < |s| ==> s[i] != s[j]
  }

  /** `openSet.delete(x)`: the entries other than `x`, in insertion order. */
  function Without(s: seq<int>, x: int): (r: seq<int>)
    ensures forall y :: y in r <==> y in s && y != x
    ensures |r| <= |s| && (x in s ==> |r| < |s|)
    ensures Distinct(s) ==> Distinct(r)
  {
    if s == [] then []
    else
      assert Distinct(s) ==> Distinct(s[1..]) && s[0] !in s[1..];
      if s[0] == x then Without(s[1..], x)
      else [s[0]] + Without(s[1..], x)
  }

  /** `openSet.add(x)`: a set keeps one copy of each entry, in insertion order. */
  function AddIfAbsent(s: seq<int>, x: int): (r: seq<int>)
    ensures forall y :: y in r <==> y in s || y == x
  {
    if x in s then s else s + [x]
  }

  /** The sum of the recorded g scores of cells `0 .. n-1`; it bounds how often a score can still drop. */
  function SumG(gScore: map<int, nat>, n: int): nat
    decreases n
  {
    if n <= 0 then 0 else SumG(gScore, n - 1) + (if n - 1 in gScore then gScore[n - 1] else 0)
  }

  /** Lowering one recorded score lowers the sum, provided the cell is counted. */
  lemma {:induction false} SumGLowered(gScore: map<int, nat>, k: int, v: nat, n: int)
    requires k in gScore && v <= gScore[k]
    ensures SumG(gScore[k := v], n) <= SumG(gScore, n)
    ensures 0 <= k < n && v < gScore[k] ==> SumG(gScore[k := v], n) < SumG(gScore, n)
    decreases n
  {
    if n > 0 {
      SumGLowered(gScore, k, v, n - 1);
    }
  }

  /**
   * What `findPath` keeps true between steps: every recorded cell has a
   * predecessor chain back to the start along legal moves with strictly
   * smaller g scores, the open set holds scored cells once each, and every
   * recorded cell that has left the open set has all its legal successors
   * recorded (`pending` is the cell being expanded, `-1` between
   * expansions). The goal, once recorded, stays open until it is chosen.
   */
  ghost predicate AstarInv(P: Problem, openSet: seq<int>, gScore: map<int, nat>, fScore: map<int, int>,
                           cameFrom: map<int, int>, pending: int)
  {
    && P.WellFormed()
    && P.StartIdx() in gScore && gScore[P.StartIdx()] == 0
    && (forall v :: v in gScore ==> 0 <= v < P.Cells())
    && cameFrom.Keys == gScore.Keys - {P.StartIdx()}
    && (forall v {:trigger cameFrom[v]} :: v in cameFrom ==>
          cameFrom[v] in gScore && gScore[cameFrom[v]] < gScore[v] && P.Edge(cameFrom[v], v))
    && Distinct(openSet)
    && (forall i :: 0 <= i < |openSet| ==> openSet[i] in gScore && openSet[i] in fScore)
    && (forall v, w {:trigger P.Edge(v, w)} :: v in gScore && v !in openSet && v != pending && P.Edge(v, w) ==> w in gScore)
    && (P.GoalIdx() in gScore ==> P.GoalIdx() in openSet)
  }

  lemma AstarInitial(P: Problem)
    requires P.WellFormed()
    ensures AstarInv(P, [P.StartIdx()], map[P.StartIdx() := 0], map[P.StartIdx() := Heuristic(P.start, P.goal)], map[], -1)
  {
    PointOfIndexOf(P.g, P.start);
  }

  /** Taking the chosen cell out of the open set to expand it. */
  lemma AstarDequeue(P: Problem, openSet: seq<int>, gScore: map<int, nat>, fScore: map<int, int>,
                     cameFrom: map<int, int>, current: int)
    requires AstarInv(P, openSet, gScore, fScore, cameFrom, -1)
    requires current in openSet && current != P.GoalIdx()
    ensures AstarInv(P, Without(openSet, current), gScore, fScore, cameFrom, current)
    ensures current in gScore
  {
    var i :| 0 <= i < |openSet| && openSet[i] == current;
    var r := Without(openSet, current);
    forall k | 0 <= k < |r|
      ensures r[k] in gScore && r[k] in fScore
    {
      assert r[k] in r;
    }
  }

  /** Recording a better score for a legal successor of the cell being expanded. */
  lemma AstarRelax(P: Problem, openSet: seq<int>, gScore: map<int, nat>, fScore: map<int, int>,
                   cameFrom: map<int, int>, current: int, idx: int, f: int)
    requires AstarInv(P, openSet, gScore, fScore, cameFrom, current)
    requires current in gScore && P.Edge(current, idx)
    requires idx !in gScore || gScore[current] + 1 < gScore[idx]
    ensures AstarInv(P, AddIfAbsent(openSet, idx), gScore[idx := gScore[current] + 1], fScore[idx := f],
                     cameFrom[idx := current], current)
  {
    PointOfIndexOf(P.g, P.start);
    var open' := AddIfAbsent(openSet, idx);
    forall k | 0 <= k < |open'|
      ensures open'[k] in gScore[idx := gScore[current] + 1] && open'[k] in fScore[idx := f]
    {
      assert open'[k] in open';
      if open'[k] != idx {
        var i :| 0 <= i < |openSet| && openSet[i] == open'[k];
      }
    }
  }

  /** A cell is handled in A* once a neighbour that may be entered has a recorded score. */
  lemma AstarExpanded(P: Problem, openSet: seq<int>, gScore: map<int, nat>, fScore: map<int, int>,
                      cameFrom: map<int, int>, current: int, nbrs: seq<Point>)
    requires AstarInv(P, openSet, gScore, fScore, cameFrom, current)
    requires current in gScore
    requires forall q :: q in nbrs <==> InGrid(P.g, q) && Adjacent(PointOf(P.g, current), q)
    requires forall q :: q in nbrs[..|nbrs|] ==> Handled(P, gScore.Keys, q)
    ensures AstarInv(P, openSet, gScore, fScore, cameFrom, -1)
  {
    assert nbrs[..|nbrs|] == nbrs;
    forall w | P.Edge(current, w)
      ensures w in gScore
    {
      IndexOfPointOf(P.g, w);
      PointOfIndexOf(P.g, P.goal);
      var q := PointOf(P.g, w);
      assert q in nbrs && Handled(P, gScore.Keys, q);
    }
  }

  /**
   * The loop measure of `findPath` has not grown: no recorded cell was
   * dropped, and unless a new cell was recorded the score sum has not
   * grown, and unless it dropped the open set is unchanged.
   */
  ghost predicate NoRegress(P: Problem, g0: map<int, nat>, open0: seq<int>, gScore: map<int, nat>, openSet: seq<int>)
  {
    && g0.Keys <= gScore.Keys
    && (gScore.Keys == g0.Keys ==>
          SumG(gScore, P.Cells()) <= SumG(g0, P.Cells()) && (SumG(gScore, P.Cells()) == SumG(g0, P.Cells()) ==> openSet == open0))
  }

  lemma RelaxNoRegress(P: Problem, g0: map<int, nat>, open0: seq<int>, gScore: map<int, nat>, openSet: seq<int>,
                       idx: int, v: nat)
    requires NoRegress(P, g0, open0, gScore, openSet)
    requires idx !in gScore || (v < gScore[idx] && 0 <= idx < P.Cells())
    ensures NoRegress(P, g0, open0, gScore[idx := v], AddIfAbsent(openSet, idx))
  {
    if idx in gScore {
      SumGLowered(gScore, idx, v, P.Cells());
      assert gScore[idx := v].Keys == gScore.Keys;
    }
  }

  /** One neighbour of the A* inner loop: a cell that may be entered and is reached more cheaply through `current` is rescored and opened. */
  method AstarRelaxOne(g: GridState, canWalk: (int, int) -> bool, goal: Point, goalIdx: int, ghost P: Problem,
                       current: int, neighbor: Point, openSet: seq<int>, gScore: map<int, nat>, fScore: map<int, int>,
                       cameFrom: map<int, int>, ghost g0: map<int, nat>, ghost open0: seq<int>)
    returns (openSet': seq<int>, gScore': map<int, nat>, fScore': map<int, int>, cameFrom': map<int, int>)
    requires P.g == g && P.canWalk == canWalk && P.goal == goal && goalIdx == P.GoalIdx()
    requires AstarInv(P, openSet, gScore, fScore, cameFrom, current)
    requires current in gScore
    requires InGrid(g, neighbor) && Adjacent(PointOf(g, current), neighbor)
    requires NoRegress(P, g0, open0, gScore, openSet)
    ensures AstarInv(P, openSet', gScore', fScore', cameFrom', current)
    ensures current in gScore' && gScore.Keys <= gScore'.Keys
    ensures Handled(P, gScore'.Keys, neighbor)
    ensures NoRegress(P, g0, open0, gScore', openSet')
  {
    openSet', gScore', fScore', cameFrom' := openSet, gScore, fScore, cameFrom;
    var neighborIdx := IndexOf(g, neighbor.x, neighbor.y);
    if !canWalk(neighbor.x, neighbor.y) && neighborIdx != goalIdx {
      return;
    }
    var tentative := gScore[current] + 1;
    if neighborIdx !in gScore || tentative < gScore[neighborIdx] {
      NeighborIsEdge(P, current, neighbor);
      AstarRelax(P, openSet, gScore, fScore, cameFrom, current, neighborIdx, tentative + Heuristic(neighbor, goal));
      RelaxNoRegress(P, g0, open0, gScore, openSet, neighborIdx, tentative);
      cameFrom' := cameFrom[neighborIdx := current];
      gScore' := gScore[neighborIdx := tentative];
      fScore' := fScore[neighborIdx := tentative + Heuristic(neighbor, goal)];
      openSet' := AddIfAbsent(openSet, neighborIdx);
    }
  }

  /**
   * The inner loop of `findPath`: for each in-grid neighbour of `current`
   * that is walkable or the goal, record `current` as its predecessor when
   * going through `current` improves its g score, and open it.
   */
  method AstarRelaxNeighbors(g: GridState, canWalk: (int, int) -> bool, goal: Point, goalIdx: int, ghost P: Problem,
                             current: int, openSet: seq<int>, gScore: map<int, nat>, fScore: map<int, int>,
                             cameFrom: map<int, int>)
    returns (openSet': seq<int>, gScore': map<int, nat>, fScore': map<int, int>, cameFrom': map<int, int>)
    requires P.g == g && P.canWalk == canWalk && P.goal == goal && goalIdx == P.GoalIdx()
    requires AstarInv(P, openSet, gScore, fScore, cameFrom, current)
    requires current in gScore
    ensures AstarInv(P, openSet', gScore', fScore', cameFrom', -1)
    ensures NoRegress(P, gScore, openSet, gScore', openSet')
  {
    var cp := PointOf(g, current);
    var nbrs := NeighborPoints(g, cp.x, cp.y);
    openSet', gScore', fScore', cameFrom' := openSet, gScore, fScore, cameFrom;
    var j := 0;
    while j < |nbrs|
      invariant 0 <= j <= |nbrs|
      invariant AstarInv(P, openSet', gScore', fScore', cameFrom', current)
      invariant current in gScore'
      invariant forall q :: q in nbrs[..j] ==> Handled(P, gScore'.Keys, q)
      invariant NoRegress(P, gScore, openSet, gScore', openSet')
    {
      ghost var before := gScore'.Keys;
      assert nbrs[j] in nbrs;
      openSet', gScore', fScore', cameFrom' :=
        AstarRelaxOne(g, canWalk, goal, goalIdx, P, current, nbrs[j], openSet', gScore', fScore', cameFrom', gScore, openSet);
      HandledNext(P, before, gScore'.Keys, nbrs, j);
      j := j + 1;
    }
    AstarExpanded(P, openSet', gScore', fScore', cameFrom', current, nbrs);
  }

  /** The path rebuilt when the goal is chosen is a valid path. */
  lemma AstarFoundValid(P: Problem, openSet: seq<int>, gScore: map<int, nat>, fScore: map<int, int>,
                        cameFrom: map<int, int>, chain: seq<int>, path: seq<Point>)
    requires AstarInv(P, openSet, gScore, fScore, cameFrom, -1)
    requires |chain| >= 1 && chain[|chain| - 1] == P.GoalIdx() && chain[0] !in cameFrom
    requires forall i :: 0 <= i < |chain| ==> 0 <= chain[i] && chain[i] in gScore
    requires forall i :: 1 <= i < |chain| ==> chain[i] in cameFrom && cameFrom[chain[i]] == chain[i - 1]
    requires |path| == |chain| && forall i :: 0 <= i < |path| ==> path[i] == PointOf(P.g, chain[i])
    ensures P.ValidPath(path)
  {
    assert chain[0] == P.StartIdx();
    ChainIsValidPath(P, chain, path);
  }

  /** The measure of the A* loop decreases over one expansion. */
  lemma AstarMeasureDecreases(P: Problem, g0: map<int, nat>, open0: seq<int>, gScore: map<int, nat>,
                              openSet: seq<int>, current: int)
    requires current in open0
    requires forall v :: v in gScore ==> 0 <= v < P.Cells()
    requires NoRegress(P, g0, Without(open0, current), gScore, openSet)
    ensures AllCells(P) - gScore.Keys <= AllCells(P) - g0.Keys
    ensures AllCells(P) - gScore.Keys == AllCells(P) - g0.Keys ==>
      SumG(gScore, P.Cells()) <= SumG(g0, P.Cells()) &&
      (SumG(gScore, P.Cells()) == SumG(g0, P.Cells()) ==> |openSet| < |open0|)
  {
    UnvisitedShrinks(P, g0.Keys, gScore.Keys);
  }

  /**
   * `findPath` (A*): a valid path from start to goal, or the empty list
   * exactly when no valid path exists. The open set is searched for the
   * first entry with the least f score; a cell's g score and predecessor
   * are replaced whenever a strictly shorter way to it is found.
   */
  method FindPath(g: GridState, start: Point, goal: Point, canWalk: (int, int) -> bool)
    returns (path: seq<Point>)
    requires InGrid(g, start) && InGrid(g, goal)
    ensures start == goal ==> path == [start]
    ensures path != [] ==> Problem(g, canWalk, start, goal).ValidPath(path)
    ensures path == [] <==> forall p :: !Problem(g, canWalk, start, goal).ValidPath(p)
  {
    ghost var P := Problem(g, canWalk, start, goal);
    var startIdx := IndexOf(g, start.x, start.y);
    var goalIdx := IndexOf(g, goal.x, goal.y);
    PointOfIndexOf(g, start);
    PointOfIndexOf(g, goal);

    var openSet := [startIdx];
    var cameFrom: map<int, int> := map[];
    var gScore: map<int, nat> := map[startIdx := 0];
    var fScore: map<int, int> := map[startIdx := Heuristic(start, goal)];
    AstarInitial(P);

    while |openSet| > 0
      invariant AstarInv(P, openSet, gScore, fScore, cameFrom, -1)
      decreases AllCells(P) - gScore.Keys, SumG(gScore, P.Cells()), |openSet|
    {
      var currentIdx := LowestF(openSet, fScore);
      assert openSet[0] in fScore;
      if currentIdx == goalIdx {
        ghost var chain;
        path, chain := ReconstructPath(g, cameFrom, currentIdx, gScore);
        AstarFoundValid(P, openSet, gScore, fScore, cameFrom, chain, path);
        return;
      }
      AstarDequeue(P, openSet, gScore, fScore, cameFrom, currentIdx);
      ghost var g0, open0 := gScore, openSet;
      openSet := Without(openSet, currentIdx);
      openSet, gScore, fScore, cameFrom := AstarRelaxNeighbors(g, canWalk, goal, goalIdx, P, currentIdx, openSet, gScore, fScore, cameFrom);
      AstarMeasureDecreases(P, g0, open0, gScore, openSet, currentIdx);
    }

    NoPathOutsideClosedSet(P, gScore.Keys);
    path := [];
  }
}
