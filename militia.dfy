/**
 * The militia's patrol and return behaviour, from src/logic/systems.ts:
 * `computePath`, `handleMilitiaPatrol` and `handleMilitiaReturn`.
 *
 * A militia unit's state is an object the handlers update in place, so it
 * is a class here; the unit's transform is the position passed in, and the
 * handler returns where the unit stands afterwards.
 */
module Militia {
  import opened Wrappers
  import opened Grid
  import opened Ecs
  import opened Pathfinding

  // ---- Paths for the militia ----

  /** The walkability `computePath` hands to the search: every in-bounds cell. */
  function Inside(g: GridState): (int, int) -> bool
  {
    (x: int, y: int) => 0 <= x && 0 <= y && x < g.width && y < g.height
  }

  /** The search problem `computePath` poses. */
  function Route(g: GridState, start: Point, goal: Point): Problem
  {
    Problem(g, Inside(g), start, goal)
  }

  /** A walk from `s` to `goal` that first evens out x, then y. */
  function Staircase(s: Point, goal: Point): (r: seq<Point>)
    ensures |r| >= 1 && r[0] == s && r[|r| - 1] == goal
    decreases Heuristic(s, goal)
  {
    if s == goal then [s]
    else if s.x < goal.x then [s] + Staircase(Point(s.x + 1, s.y), goal)
    else if s.x > goal.x then [s] + Staircase(Point(s.x - 1, s.y), goal)
    else if s.y < goal.y then [s] + Staircase(Point(s.x, s.y + 1), goal)
    else [s] + Staircase(Point(s.x, s.y - 1), goal)
  }

  /** Every move of the staircase stays in the grid and is one unit step. */
  lemma {:induction false} StaircaseSteps(g: GridState, s: Point, goal: Point)
    requires InGrid(g, s) && InGrid(g, goal)
    ensures forall i :: 0 <= i < |Staircase(s, goal)| - 1 ==>
      Route(g, s, goal).Step(Staircase(s, goal)[i], Staircase(s, goal)[i + 1])
    decreases Heuristic(s, goal)
  {
    var r := Staircase(s, goal);
    if s != goal {
      var n := r[1];
      assert r == [s] + Staircase(n, goal);
      StaircaseSteps(g, n, goal);
      assert Route(g, s, goal).Step(s, n);
      forall i | 1 <= i < |r| - 1
        ensures Route(g, s, goal).Step(r[i], r[i + 1])
      {
        assert r[i] == Staircase(n, goal)[i - 1] && r[i + 1] == Staircase(n, goal)[i];
        assert Route(g, n, goal).Step(r[i], r[i + 1]);
      }
    }
  }

  /**
   * With every in-bounds cell walkable, any two cells of the grid are
   * joined by a path.
   */
  lemma AlwaysConnected(g: GridState, start: Point, goal: Point)
    requires InGrid(g, start) && InGrid(g, goal)
    ensures Route(g, start, goal).ValidPath(Staircase(start, goal))
  {
    StaircaseSteps(g, start, goal);
  }

  /**
   * `computePath`: the moves from `start` to `goal`, without the start
   * cell; no moves when already there. Since the grid is connected under
   * this walkability, the "no path" answer never comes back, and the moves
   * form a valid path once the start is put in front.
   */
  method ComputePath(g: GridState, start: Point, goal: Point) returns (r: Option<seq<Point>>)
    requires InGrid(g, start) && InGrid(g, goal)
    ensures r.Some?
    ensures start == goal <==> r.value == []
    ensures start != goal ==> Route(g, start, goal).ValidPath([start] + r.value)
  {
    if start == goal {
      return Some([]);
    }
    var path := FindPath(g, start, goal, Inside(g));
    AlwaysConnected(g, start, goal);
    if path == [] {
      return None;
    }
    assert path == [start] + path[1..];
    return Some(path[1..]);
  }

  /** The first move of a path from `start` goes to an adjacent cell of the grid. */
  lemma FirstMove(g: GridState, start: Point, goal: Point, moves: seq<Point>)
    requires moves != [] && Route(g, start, goal).ValidPath([start] + moves)
    ensures InGrid(g, moves[0]) && Adjacent(start, moves[0])
  {
    assert ([start] + moves)[1] == moves[0];
  }

  // ---- Militia state ----

  /** What a militia unit is doing. */
  datatype Behavior = Patrol | Engage(targetId: Entity) | Return(path: seq<Point>)

  /** The route index after reaching (or giving up on) the current waypoint. */
  function NextWaypoint(index: int, n: int): (r: int)
    requires 0 < n
    ensures 0 <= r < n
    ensures 0 <= index < n - 1 ==> r == index + 1
    ensures index == n - 1 ==> r == 0
  {
    (index + 1) % n
  }

  class MilitiaState {
    var patrolRoute: seq<Point>
    var patrolIndex: int
    var pauseTimer: int
    var pauseDuration: int
    var moveCooldown: int
    var moveInterval: int
    var attackCooldown: int
    var attackInterval: int
    var behavior: Behavior

    /** The route index is never negative, so the waypoint lookup stays on the route. */
    predicate Valid()
      reads this
    {
      0 <= patrolIndex
    }

    /** The waypoint the unit heads for. */
    function Target(): (p: Point)
      reads this
      requires Valid() && patrolRoute != []
      ensures p in patrolRoute
    {
      patrolRoute[patrolIndex % |patrolRoute|]
    }

    /**
     * `handleMilitiaPatrol`: with no route nothing happens. On the current
     * waypoint the unit moves on to the next one, cyclically, and pauses.
     * While paused or cooling down it stays. Otherwise it takes the first
     * step of a path to the waypoint, which lands on an adjacent grid cell,
     * and its move cooldown restarts; the ghost `moves` is that path.
     */
    method HandlePatrol(g: GridState, at: Transform) returns (to: Transform, ghost moves: seq<Point>)
      requires Valid()
      requires g.InBounds(at.tileX, at.tileY)
      requires forall p :: p in patrolRoute ==> InGrid(g, p)
      modifies this
      ensures Valid()
      ensures patrolRoute == old(patrolRoute) && behavior == old(behavior)
      ensures attackCooldown == old(attackCooldown) && pauseDuration == old(pauseDuration)
      ensures moveInterval == old(moveInterval) && attackInterval == old(attackInterval)
      ensures old(patrolRoute) == [] ==> to == at && unchanged(this)
      ensures old(patrolRoute) != [] && at == Transform(old(Target()).x, old(Target()).y) ==>
        to == at && patrolIndex == NextWaypoint(old(patrolIndex), |patrolRoute|) &&
        pauseTimer == pauseDuration && moveCooldown == old(moveCooldown)
      ensures old(patrolRoute) != [] && at != Transform(old(Target()).x, old(Target()).y) &&
              (old(pauseTimer) > 0 || old(moveCooldown) > 0) ==>
        to == at && unchanged(this)
      ensures old(patrolRoute) != [] && at != Transform(old(Target()).x, old(Target()).y) &&
              old(pauseTimer) <= 0 && old(moveCooldown) <= 0 ==>
        moves != [] && Route(g, Point(at.tileX, at.tileY), old(Target())).ValidPath([Point(at.tileX, at.tileY)] + moves) &&
        Point(to.tileX, to.tileY) == moves[0] &&
        InGrid(g, Point(to.tileX, to.tileY)) && Adjacent(Point(at.tileX, at.tileY), Point(to.tileX, to.tileY)) &&
        patrolIndex == old(patrolIndex) && pauseTimer == old(pauseTimer) && moveCooldown == moveInterval
    {
      to := at;
      moves := [];
      if |patrolRoute| == 0 {
        return;
      }
      var n := |patrolRoute|;
      var target := patrolRoute[patrolIndex % n];
      if at.tileX == target.x && at.tileY == target.y {
        patrolIndex := NextWaypoint(patrolIndex, n);
        pauseTimer := pauseDuration;
        return;
      }
      if pauseTimer > 0 || moveCooldown > 0 {
        return;
      }
      var start := Point(at.tileX, at.tileY);
      var path := ComputePath(g, start, target);
      if path.None? || path.value == [] {
        // Giving up on the waypoint: unreachable, since the unit is not on it
        // and `ComputePath` always finds moves to another cell.
        assert false;
      }
      FirstMove(g, start, target, path.value);
      moves := path.value;
      var next := path.value[0];
      to := Transform(next.x, next.y);
      moveCooldown := moveInterval;
    }

    /**
     * `handleMilitiaReturn`: outside the return behaviour nothing happens.
     * An empty return path switches to patrolling and pauses. While cooling
     * down the unit stays. Otherwise it steps onto the first cell of the
     * path, which is taken off, its move cooldown restarts, and on taking
     * the last cell it switches to patrolling and pauses.
     */
    method HandleReturn(at: Transform) returns (to: Transform)
      modifies this
      ensures patrolRoute == old(patrolRoute) && patrolIndex == old(patrolIndex)
      ensures attackCooldown == old(attackCooldown) && pauseDuration == old(pauseDuration)
      ensures moveInterval == old(moveInterval) && attackInterval == old(attackInterval)
      ensures !old(behavior).Return? ==> to == at && unchanged(this)
      ensures old(behavior).Return? && old(behavior).path == [] ==>
        to == at && behavior == Patrol && pauseTimer == pauseDuration && moveCooldown == old(moveCooldown)
      ensures old(behavior).Return? && old(behavior).path != [] && old(moveCooldown) > 0 ==>
        to == at && unchanged(this)
      ensures old(behavior).Return? && old(behavior).path != [] && old(moveCooldown) <= 0 ==>
        to == Transform(old(behavior).path[0].x, old(behavior).path[0].y) && moveCooldown == moveInterval &&
        (if |old(behavior).path| == 1 then behavior == Patrol && pauseTimer == pauseDuration
         else behavior == Return(old(behavior).path[1..]) && pauseTimer == old(pauseTimer))
    {
      to := at;
      if !behavior.Return? {
        return;
      }
      if |behavior.path| == 0 {
        behavior := Patrol;
        pauseTimer := pauseDuration;
        return;
      }
      if moveCooldown > 0 {
        return;
      }
      var next := behavior.path[0];
      behavior := Return(behavior.path[1..]);
      to := Transform(next.x, next.y);
      moveCooldown := moveInterval;
      if |behavior.path| == 0 {
        behavior := Patrol;
        pauseTimer := pauseDuration;
      }
    }
  }

  /** The number of moves left on the way back, 0 outside the return behaviour. */
  function MovesLeft(b: Behavior): nat
  {
    if b.Return? then |b.path| else 0
  }

  /**
   * A unit on its way back never holds an empty path after a move, and
   * each move shortens what is left by exactly one.
   */
  lemma ReturnShortens(before: Behavior, after: Behavior)
    requires before.Return? && before.path != []
    requires if |before.path| == 1 then after == Patrol else after == Return(before.path[1..])
    ensures MovesLeft(after) == MovesLeft(before) - 1
    ensures after.Return? ==> after.path != []
  {
  }
}
