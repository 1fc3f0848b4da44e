/**
 * The Dark Lord of src/logic/systems.ts: `tryCorruptTile`,
 * `trySpawnWave`, `actionCooldownTicks`, `executeDarkLordAction` and
 * `darkLordSystem`.
 *
 * Both actions shuffle with the world generator (`Shuffle.ShuffleInPlace`),
 * so which tile or edge cell they pick depends on the draws; the contracts
 * below say what holds whatever the draws are.
 */
module DarkLord {
  import opened Wrappers
  import opened Grid
  import opened Ecs
  import XorShift
  import Shuffle
  import TickSystems
  import Combat

  // ---- Corrupting a tile ----

  /** A town tile not yet corrupted: the first choice of `tryCorruptTile`. */
  predicate IsOpenTown(t: Tile)
  {
    t.kind == TileType.Town && !t.corrupted
  }

  /** A tile that can still take corruption: below the cap, or not yet marked corrupted. */
  predicate IsCandidate(t: Tile, tileMax: real)
  {
    t.corruption < tileMax || !t.corrupted
  }

  /** A town overrun at once: full progress, corruption raised to 1 but kept within the cap. */
  function TownCorrupted(t: Tile, tileMax: real): (r: Tile)
    ensures r.kind == t.kind && r.corrupted && !r.corrupting && r.corruptProgress == 1.0
    ensures r.corruption <= tileMax
    ensures 1.0 <= tileMax ==> 1.0 <= r.corruption
    ensures t.corruption <= tileMax ==> t.corruption <= r.corruption
  {
    var raised := if t.corruption < 1.0 then 1.0 else t.corruption;
    t.(corruptProgress := 1.0,
       corruption := if tileMax < raised then tileMax else raised,
       corrupted := true,
       corrupting := false)
  }

  /** A tile grown by one step of corruption, capped, with progress following it up to 1. */
  function Grown(t: Tile, increment: real, tileMax: real): (r: Tile)
    ensures r.kind == t.kind && r.corrupting
    ensures r.corruption <= tileMax
    ensures r.corruptProgress <= 1.0
    ensures t.corruption <= tileMax && 0.0 <= increment ==> t.corruption <= r.corruption
    ensures t.corruptProgress <= 1.0 ==> t.corruptProgress <= r.corruptProgress
    ensures r.corrupted <==> 0.999 <= r.corruption
  {
    var corruption := if tileMax < t.corruption + increment then tileMax else t.corruption + increment;
    var progress := if t.corruptProgress < corruption then corruption else t.corruptProgress;
    t.(corruption := corruption,
       corruptProgress := if 1.0 < progress then 1.0 else progress,
       corrupted := 0.999 <= corruption,
       corrupting := true)
  }

  /** A tile already at the cap stays there however often it grows. */
  lemma GrownAtCapStays(t: Tile, increment: real, tileMax: real)
    requires t.corruption == tileMax && 0.0 <= increment
    ensures Grown(t, increment, tileMax).corruption == tileMax
  {
  }

  /** The indices 0, 1, ..., n - 1. */
  function Indices(n: nat): (r: seq<int>)
    ensures |r| == n && forall i :: 0 <= i < n ==> r[i] == i
  {
    seq(n, i => i)
  }

  /** A rearrangement of the indices holds each index once and nothing else. */
  lemma PermutedIndices(s: seq<int>, n: nat)
    requires multiset(s) == multiset(Indices(n))
    ensures forall i :: 0 <= i < |s| ==> 0 <= s[i] < n
    ensures forall k :: 0 <= k < n ==> k in s
  {
    var ids := Indices(n);
    forall i | 0 <= i < |s|
      ensures 0 <= s[i] < n
    {
      assert s[i] in multiset(s);
      assert s[i] in ids;
    }
    forall k | 0 <= k < n
      ensures k in s
    {
      assert ids[k] == k;
      assert k in multiset(ids);
    }
  }

  /** What each search of `tryCorruptTile` looks for. */
  predicate Wanted(t: Tile, tileMax: real, towns: bool)
  {
    if towns then IsOpenTown(t) else IsCandidate(t, tileMax)
  }

  /** The head of `indices.filter(...)`: the first index in shuffled order whose tile is wanted. */
  method FirstWanted(order: array<int>, tiles: seq<Tile>, tileMax: real, towns: bool) returns (found: Option<int>)
    requires forall i :: 0 <= i < order.Length ==> 0 <= order[i] < |tiles|
    ensures found.Some? ==> 0 <= found.value < |tiles| && Wanted(tiles[found.value], tileMax, towns)
    ensures found.Some? ==>
      exists i :: 0 <= i < order.Length && order[i] == found.value && forall j :: 0 <= j < i ==> !Wanted(tiles[order[j]], tileMax, towns)
    ensures found.None? ==> forall i :: 0 <= i < order.Length ==> !Wanted(tiles[order[i]], tileMax, towns)
  {
    for i := 0 to order.Length
      invariant forall j :: 0 <= j < i ==> !Wanted(tiles[order[j]], tileMax, towns)
    {
      if Wanted(tiles[order[i]], tileMax, towns) {
        return Some(order[i]);
      }
    }
    return None;
  }

  /** The grid with tile `k` replaced. */
  function WithTile(g: GridState, k: int, t: Tile): (r: GridState)
    requires 0 <= k < |g.tiles|
    ensures r.width == g.width && r.height == g.height && |r.tiles| == |g.tiles|
  {
    g.(tiles := g.tiles[k := t])
  }

  /** How many numbers a Fisher-Yates shuffle of `n` items draws: one per swap. */
  function ShuffleDraws(n: nat): nat
  {
    if n == 0 then 0 else n - 1
  }

  /**
   * What a successful `tryCorruptTile` does to the grid `g`: with an
   * uncorrupted town, one such town is overrun; with none, one tile that
   * can take corruption grows by a second's worth of corruption.
   */
  ghost predicate CorruptStep(g: GridState, g': GridState, b: Balance)
  {
    if exists k :: 0 <= k < |g.tiles| && IsOpenTown(g.tiles[k]) then
      exists k :: 0 <= k < |g.tiles| && IsOpenTown(g.tiles[k]) &&
        g' == WithTile(g, k, TownCorrupted(g.tiles[k], b.corruptionTileMax))
    else
      exists k :: 0 <= k < |g.tiles| && IsCandidate(g.tiles[k], b.corruptionTileMax) &&
        g' == WithTile(g, k, Grown(g.tiles[k], b.tileIncreasePerTick * b.ticksPerSecond as real, b.corruptionTileMax))
  }

  /**
   * `tryCorruptTile`: in a shuffled order, the first uncorrupted town is
   * overrun; failing that, the first tile that can take corruption grows;
   * with neither, nothing changes and the action fails.
   */
  method TryCorruptTile(w: World) returns (ok: bool)
    requires w.Valid()
    modifies w`grid, w.rng
    ensures w.Valid()
    ensures w.rng.state == XorShift.Iterate(old(w.rng.state), ShuffleDraws(|old(w.grid.tiles)|))
    ensures ok <==> CanCorrupt(old(w.grid), w.balance.corruptionTileMax)
    ensures ok ==> CorruptStep(old(w.grid), w.grid, w.balance)
    ensures !ok ==> w.grid == old(w.grid)
  {
    var tileMax := w.balance.corruptionTileMax;
    var n := |w.grid.tiles|;
    var order := new int[n](i => i);
    assert order[..] == Indices(n);
    Shuffle.ShuffleInPlace(order, w.rng);
    PermutedIndices(order[..], n);
    assert forall i :: 0 <= i < order.Length ==> order[i] == order[..][i];
    var tiles := w.grid.tiles;

    var town := FirstWanted(order, tiles, tileMax, true);
    if town.Some? {
      var k := town.value;
      w.grid := WithTile(w.grid, k, TownCorrupted(tiles[k], tileMax));
      return true;
    }
    assert forall k :: 0 <= k < n ==> !IsOpenTown(tiles[k]) by {
      forall k | 0 <= k < n
        ensures !IsOpenTown(tiles[k])
      {
        assert k in order[..];
      }
    }

    var candidate := FirstWanted(order, tiles, tileMax, false);
    if candidate.None? {
      forall k | 0 <= k < n
        ensures !IsCandidate(tiles[k], tileMax)
      {
        assert k in order[..];
      }
      return false;
    }
    var k := candidate.value;
    var increment := w.balance.tileIncreasePerTick * w.balance.ticksPerSecond as real;
    w.grid := WithTile(w.grid, k, Grown(tiles[k], increment, tileMax));
    return true;
  }

  // ---- Spawning a wave ----

  /** The pairs `(x, top)`, `(x, bottom)` for `x` from `xs` up to `xe - 1`, in that order. */
  function RowPairs(xs: int, xe: int, top: int, bottom: int): (r: seq<TileSpot>)
    ensures |r| == if xe <= xs then 0 else 2 * (xe - xs)
    decreases xe - xs
  {
    if xe <= xs then []
    else RowPairs(xs, xe - 1, top, bottom) + [TileSpot(xe - 1, top), TileSpot(xe - 1, bottom)]
  }

  /** The pairs `(left, y)`, `(right, y)` for `y` from `ys` up to `ye - 1`, in that order. */
  function ColumnPairs(ys: int, ye: int, left: int, right: int): (r: seq<TileSpot>)
    ensures |r| == if ye <= ys then 0 else 2 * (ye - ys)
    decreases ye - ys
  {
    if ye <= ys then []
    else ColumnPairs(ys, ye - 1, left, right) + [TileSpot(left, ye - 1), TileSpot(right, ye - 1)]
  }

  /** The edge cells of the box inset by `p`: its top and bottom rows, then its side columns. */
  function EdgeRing(width: int, height: int, p: int): seq<TileSpot>
  {
    RowPairs(p, width - p, p, height - p - 1) + ColumnPairs(p + 1, height - p - 1, p, width - p - 1)
  }

  /** On the border of the box inset by `p`. */
  predicate OnInsetBorder(s: TileSpot, width: int, height: int, p: int)
  {
    p <= s.tileX < width - p && p <= s.tileY < height - p &&
    (s.tileX == p || s.tileX == width - p - 1 || s.tileY == p || s.tileY == height - p - 1)
  }

  lemma {:induction false} RowPairsOnBorder(xs: int, xe: int, width: int, height: int, p: int)
    requires p <= xs && xe <= width - p && 2 * p < height
    ensures forall s :: s in RowPairs(xs, xe, p, height - p - 1) ==> OnInsetBorder(s, width, height, p)
    decreases xe - xs
  {
    if xs < xe {
      RowPairsOnBorder(xs, xe - 1, width, height, p);
    }
  }

  lemma {:induction false} ColumnPairsOnBorder(ys: int, ye: int, width: int, height: int, p: int)
    requires p <= ys && ye <= height - p && 2 * p < width
    ensures forall s :: s in ColumnPairs(ys, ye, p, width - p - 1) ==> OnInsetBorder(s, width, height, p)
    decreases ye - ys
  {
    if ys < ye {
      ColumnPairsOnBorder(ys, ye - 1, width, height, p);
    }
  }

  /**
   * The ring is never empty once the inset box exists, and each of its
   * cells is on that box's border; with a padding of at least 0 every cell
   * is on the grid.
   */
  lemma EdgeRingOnBorder(width: int, height: int, p: int)
    requires 2 * p < width && 2 * p < height
    ensures |EdgeRing(width, height, p)| > 0
    ensures forall s :: s in EdgeRing(width, height, p) ==> OnInsetBorder(s, width, height, p)
    ensures 0 <= p ==> forall s :: s in EdgeRing(width, height, p) ==> 0 <= s.tileX < width && 0 <= s.tileY < height
  {
    var rows := RowPairs(p, width - p, p, height - p - 1);
    var cols := ColumnPairs(p + 1, height - p - 1, p, width - p - 1);
    assert EdgeRing(width, height, p) == rows + cols;
    assert |rows| > 0;
    RowPairsOnBorder(p, width - p, width, height, p);
    ColumnPairsOnBorder(p + 1, height - p - 1, width, height, p);
    forall s | s in rows + cols
      ensures OnInsetBorder(s, width, height, p)
    {
      if s !in rows {
        assert s in cols;
      }
    }
  }

  /** The two candidate loops of `trySpawnWave`. */
  method BuildEdgeRing(width: int, height: int, p: int) returns (candidates: seq<TileSpot>)
    ensures candidates == EdgeRing(width, height, p)
  {
    candidates := [];
    var x := p;
    while x < width - p
      invariant p <= x && (x == p || x <= width - p)
      invariant candidates == RowPairs(p, x, p, height - p - 1)
      decreases width - p - x
    {
      candidates := candidates + [TileSpot(x, p), TileSpot(x, height - p - 1)];
      x := x + 1;
    }
    assert RowPairs(p, x, p, height - p - 1) == RowPairs(p, width - p, p, height - p - 1);
    ghost var rows := candidates;
    var y := p + 1;
    while y < height - p - 1
      invariant p + 1 <= y && (y == p + 1 || y <= height - p - 1)
      invariant candidates == rows + ColumnPairs(p + 1, y, p, width - p - 1)
      decreases height - p - 1 - y
    {
      candidates := candidates + [TileSpot(p, y), TileSpot(width - p - 1, y)];
      y := y + 1;
    }
    assert ColumnPairs(p + 1, y, p, width - p - 1) == ColumnPairs(p + 1, height - p - 1, p, width - p - 1);
  }

  /** The tile indices some entity stands on at the start of the wave. */
  function Occupied(c: Components, g: GridState): set<int>
  {
    set e | e in c.transforms :: GridIndex(g, c.transforms[e].tileX, c.transforms[e].tileY)
  }

  /**
   * The cells the wave takes: walking the candidates in order, each one
   * whose index is not yet occupied is taken and occupied, until `room`
   * cells are taken.
   */
  function Greedy(g: GridState, candidates: seq<TileSpot>, occupied: set<int>, room: int): seq<TileSpot>
    decreases |candidates|
  {
    if candidates == [] || room <= 0 then []
    else
      var s := candidates[0];
      var idx := GridIndex(g, s.tileX, s.tileY);
      if idx in occupied then Greedy(g, candidates[1..], occupied, room)
      else [s] + Greedy(g, candidates[1..], occupied + {idx}, room - 1)
  }

  /**
   * The wave's cells: no more than `room` of them, each a candidate, each
   * on a tile free at the start, no two on the same tile.
   */
  lemma {:induction false} GreedyProperties(g: GridState, candidates: seq<TileSpot>, occupied: set<int>, room: int)
    ensures |Greedy(g, candidates, occupied, room)| <= if room < 0 then 0 else room
    ensures forall s :: s in Greedy(g, candidates, occupied, room) ==> s in candidates
    ensures forall s :: s in Greedy(g, candidates, occupied, room) ==> GridIndex(g, s.tileX, s.tileY) !in occupied
    ensures forall i, j :: 0 <= i < j < |Greedy(g, candidates, occupied, room)| ==>
      GridIndex(g, Greedy(g, candidates, occupied, room)[i].tileX, Greedy(g, candidates, occupied, room)[i].tileY) !=
      GridIndex(g, Greedy(g, candidates, occupied, room)[j].tileX, Greedy(g, candidates, occupied, room)[j].tileY)
    decreases |candidates|
  {
    if candidates != [] && room > 0 {
      var s := candidates[0];
      var idx := GridIndex(g, s.tileX, s.tileY);
      if idx in occupied {
        GreedyProperties(g, candidates[1..], occupied, room);
      } else {
        var rest := Greedy(g, candidates[1..], occupied + {idx}, room - 1);
        GreedyProperties(g, candidates[1..], occupied + {idx}, room - 1);
        var r := [s] + rest;
        assert Greedy(g, candidates, occupied, room) == r;
        forall i, j | 0 <= i < j < |r|
          ensures GridIndex(g, r[i].tileX, r[i].tileY) != GridIndex(g, r[j].tileX, r[j].tileY)
        {
          if i == 0 {
            assert r[j] == rest[j - 1] && r[j] in rest;
          } else {
            assert r[i] == rest[i - 1] && r[j] == rest[j - 1];
          }
        }
      }
    }
  }

  /** The wave spawns something exactly when it has room and some candidate is free, whatever the order. */
  lemma {:induction false} GreedyNonEmpty(g: GridState, candidates: seq<TileSpot>, occupied: set<int>, room: int)
    ensures |Greedy(g, candidates, occupied, room)| > 0 <==>
      0 < room && exists s :: s in candidates && GridIndex(g, s.tileX, s.tileY) !in occupied
    decreases |candidates|
  {
    if candidates != [] && room > 0 {
      var s := candidates[0];
      if GridIndex(g, s.tileX, s.tileY) in occupied {
        GreedyNonEmpty(g, candidates[1..], occupied, room);
        forall t | t in candidates && GridIndex(g, t.tileX, t.tileY) !in occupied
          ensures t in candidates[1..]
        {
          assert t != s;
        }
      }
    }
  }

  /** `trySpawnWave` has a cell to fill: the inset box exists, the wave is not empty and some edge cell is free. */
  ghost predicate WaveHasRoom(c: Components, g: GridState, b: Balance)
  {
    2 * b.waveEdgePadding < g.width && 2 * b.waveEdgePadding < g.height && 0 < b.waveSize &&
    exists s :: s in EdgeRing(g.width, g.height, b.waveEdgePadding) && GridIndex(g, s.tileX, s.tileY) !in Occupied(c, g)
  }

  /** Whatever order the edge cells are walked in, the wave is non-empty exactly when it has room. */
  lemma WaveRoomAnyOrder(c: Components, g: GridState, b: Balance, order: seq<TileSpot>)
    requires 2 * b.waveEdgePadding < g.width && 2 * b.waveEdgePadding < g.height
    requires multiset(order) == multiset(EdgeRing(g.width, g.height, b.waveEdgePadding))
    ensures |Greedy(g, order, Occupied(c, g), b.waveSize)| > 0 <==> WaveHasRoom(c, g, b)
  {
    var ring := EdgeRing(g.width, g.height, b.waveEdgePadding);
    GreedyNonEmpty(g, order, Occupied(c, g), b.waveSize);
    forall s
      ensures s in order <==> s in ring
    {
      assert s in order <==> s in multiset(order);
      assert s in ring <==> s in multiset(ring);
    }
  }

  /** The monsters a list of cells becomes. */
  function Spawns(cells: seq<TileSpot>, kind: MonsterKind): (r: seq<MonsterSpawn>)
    ensures |r| == |cells|
    ensures forall i :: 0 <= i < |cells| ==> r[i] == MonsterSpawn(cells[i].tileX, cells[i].tileY, kind)
  {
    seq(|cells|, i requires 0 <= i < |cells| => MonsterSpawn(cells[i].tileX, cells[i].tileY, kind))
  }

  /** How `Greedy` treats the candidate at position `i`, seen from the cells taken so far. */
  lemma GreedyStep(g: GridState, candidates: seq<TileSpot>, i: int, occupied: set<int>, room: int,
                   placed: seq<TileSpot>, all: seq<TileSpot>)
    requires 0 <= i < |candidates| && 0 < room
    requires placed + Greedy(g, candidates[i..], occupied, room) == all
    ensures GridIndex(g, candidates[i].tileX, candidates[i].tileY) in occupied ==>
      placed + Greedy(g, candidates[i + 1..], occupied, room) == all
    ensures GridIndex(g, candidates[i].tileX, candidates[i].tileY) !in occupied ==>
      (placed + [candidates[i]]) +
      Greedy(g, candidates[i + 1..], occupied + {GridIndex(g, candidates[i].tileX, candidates[i].tileY)}, room - 1) == all
  {
    assert candidates[i..][0] == candidates[i] && candidates[i..][1..] == candidates[i + 1..];
    var idx := GridIndex(g, candidates[i].tileX, candidates[i].tileY);
    if idx !in occupied {
      var rest := Greedy(g, candidates[i + 1..], occupied + {idx}, room - 1);
      assert placed + ([candidates[i]] + rest) == (placed + [candidates[i]]) + rest;
    }
  }

  /**
   * The choosing half of `trySpawnWave`'s loop: which candidates get a
   * monster. Spawning never changes the occupancy it reads (that set is
   * taken before the loop), so the choice can be made first.
   */
  method ChooseFreeCells(g: GridState, candidates: seq<TileSpot>, occupied0: set<int>, size: int) returns (placed: seq<TileSpot>)
    ensures placed == Greedy(g, candidates, occupied0, size)
  {
    var occupied := occupied0;
    var spawned := 0;
    placed := [];
    var i := 0;
    while i < |candidates| && spawned < size
      invariant 0 <= i <= |candidates| && spawned == |placed|
      invariant placed + Greedy(g, candidates[i..], occupied, size - spawned) == Greedy(g, candidates, occupied0, size)
      decreases |candidates| - i
    {
      var cell := candidates[i];
      var idx := GridIndex(g, cell.tileX, cell.tileY);
      GreedyStep(g, candidates, i, occupied, size - spawned, placed, Greedy(g, candidates, occupied0, size));
      if idx !in occupied {
        occupied := occupied + {idx};
        placed := placed + [cell];
        spawned := spawned + 1;
      }
      i := i + 1;
    }
    assert Greedy(g, candidates[i..], occupied, size - spawned) == [] by {
      if i == |candidates| {
        assert candidates[i..] == [];
      }
    }
  }

  /**
   * How many numbers `trySpawnWave` draws: none without room for the inset
   * box, else one per swap of its shuffle of the edge cells.
   */
  function WaveDraws(g: GridState, b: Balance): nat
  {
    var p := b.waveEdgePadding;
    if g.width <= 2 * p || g.height <= 2 * p then 0 else ShuffleDraws(|EdgeRing(g.width, g.height, p)|)
  }

  /** The edge cells of the inset box, shuffled in place with `rng`. */
  method ShuffledRing(width: int, height: int, p: int, rng: XorShift.Rng) returns (order: seq<TileSpot>)
    modifies rng
    ensures multiset(order) == multiset(EdgeRing(width, height, p))
    ensures rng.state == XorShift.Iterate(old(rng.state), ShuffleDraws(|EdgeRing(width, height, p)|))
  {
    var ring := BuildEdgeRing(width, height, p);
    var candidates := new TileSpot[|ring|](i requires 0 <= i < |ring| => ring[i]);
    assert candidates[..] == ring;
    Shuffle.ShuffleInPlace(candidates, rng);
    order := candidates[..];
  }

  /**
   * `trySpawnWave`: with room for the inset box, its edge cells are
   * shuffled and walked; up to the wave size of them that no entity
   * occupies at the start, and no earlier cell of the wave took, get a
   * monster of the wave's kind. The action succeeds when at least one
   * monster spawned (`|placed| > 0`).
   */
  method TrySpawnWave(w: World) returns (placed: seq<TileSpot>)
    requires w.Valid()
    modifies w`nextEntityId, w`entities, w`components, w.rng
    ensures w.Valid()
    ensures w.nextEntityId == old(w.nextEntityId) + |placed|
    ensures w.entities == old(w.entities) + IdRange(old(w.nextEntityId), w.nextEntityId)
    ensures w.components == SpawnAll(old(w.components), old(w.nextEntityId), Spawns(placed, w.balance.waveKind), w.balance)
    ensures w.rng.state == XorShift.Iterate(old(w.rng.state), WaveDraws(w.grid, w.balance))
    ensures w.grid.width <= 2 * w.balance.waveEdgePadding || w.grid.height <= 2 * w.balance.waveEdgePadding ==>
      placed == []
    ensures |placed| > 0 <==> WaveHasRoom(old(w.components), w.grid, w.balance)
    ensures 2 * w.balance.waveEdgePadding < w.grid.width && 2 * w.balance.waveEdgePadding < w.grid.height ==>
      exists order :: multiset(order) == multiset(EdgeRing(w.grid.width, w.grid.height, w.balance.waveEdgePadding)) &&
        placed == Greedy(w.grid, order, Occupied(old(w.components), w.grid), w.balance.waveSize)
  {
    var p := w.balance.waveEdgePadding;
    if w.grid.width <= p * 2 || w.grid.height <= p * 2 {
      return [];
    }
    var order := ShuffledRing(w.grid.width, w.grid.height, p, w.rng);
    var occupied := Occupied(w.components, w.grid);
    placed := ChooseFreeCells(w.grid, order, occupied, w.balance.waveSize);
    WaveRoomAnyOrder(w.components, w.grid, w.balance, order);
    w.SpawnMonsters(Spawns(placed, w.balance.waveKind));
  }

  // ---- Choosing and paying for an action ----

  /** The two actions, in the order `executeDarkLordAction` tries them. */
  datatype DarkAction = CorruptTileAction | SpawnWaveAction

  function Config(a: DarkAction, b: Balance): ActionConfig
  {
    match a
    case CorruptTileAction => b.corruptTileAction
    case SpawnWaveAction => b.spawnWaveAction
  }

  function CooldownOf(cd: Cooldowns, a: DarkAction): int
  {
    match a
    case CorruptTileAction => cd.corruptTile
    case SpawnWaveAction => cd.spawnWave
  }

  /** `actionCooldownTicks`: none for a non-positive cooldown, else the rounded tick count, at least 0. */
  function ActionCooldownTicks(config: ActionConfig): (r: int)
    ensures 0 <= r
    ensures config.cooldownSeconds <= 0.0 ==> r == 0
    ensures 0.0 < config.cooldownSeconds && 0 <= config.cooldownTicksRounded ==> r == config.cooldownTicksRounded
  {
    if config.cooldownSeconds <= 0.0 then 0
    else if config.cooldownTicksRounded < 0 then 0
    else config.cooldownTicksRounded
  }

  /** The energy store can afford the action and its cooldown has run out. */
  predicate Ready(d: DarkEnergy, a: DarkAction, b: Balance)
  {
    Config(a, b).cost <= d.value && CooldownOf(d.cooldowns, a) <= 0
  }

  /** The store after paying for `a`: its cost debited, its cooldown restarted (`setActionCooldown`). */
  function Paid(d: DarkEnergy, a: DarkAction, b: Balance): (r: DarkEnergy)
    ensures r.value == d.value - Config(a, b).cost
    ensures CooldownOf(r.cooldowns, a) == ActionCooldownTicks(Config(a, b))
    ensures r.cadenceTicks == d.cadenceTicks && r.cadenceCounter == d.cadenceCounter
    ensures r.cooldowns.drainClock == d.cooldowns.drainClock
    ensures a == CorruptTileAction ==> r.cooldowns.spawnWave == d.cooldowns.spawnWave
    ensures a == SpawnWaveAction ==> r.cooldowns.corruptTile == d.cooldowns.corruptTile
  {
    var ticks := ActionCooldownTicks(Config(a, b));
    d.(value := d.value - Config(a, b).cost,
       cooldowns := match a
         case CorruptTileAction => d.cooldowns.(corruptTile := ticks)
         case SpawnWaveAction => d.cooldowns.(spawnWave := ticks))
  }

  /** Paying for a ready action leaves the energy at or above 0 when it was. */
  lemma PaidNeverOverdraws(d: DarkEnergy, a: DarkAction, b: Balance)
    requires Ready(d, a, b)
    ensures 0.0 <= Paid(d, a, b).value
    ensures 0.0 <= Config(a, b).cost ==> Paid(d, a, b).value <= d.value
  {
  }

  /** Some tile can take corruption, so `tryCorruptTile` succeeds. */
  predicate CanCorrupt(g: GridState, tileMax: real)
  {
    exists k :: 0 <= k < |g.tiles| && IsCandidate(g.tiles[k], tileMax)
  }

  /** The action `executeDarkLordAction` carries out for the store `d`, if any. */
  ghost function Decision(d: DarkEnergy, c: Components, g: GridState, b: Balance): Option<DarkAction>
  {
    if Ready(d, CorruptTileAction, b) && CanCorrupt(g, b.corruptionTileMax) then Some(CorruptTileAction)
    else if Ready(d, SpawnWaveAction, b) && WaveHasRoom(c, g, b) then Some(SpawnWaveAction)
    else None
  }

  /**
   * Corrupting has priority: a wave is only sent when corrupting is not
   * possible, and whatever fires was affordable and off cooldown.
   */
  lemma DecisionPriority(d: DarkEnergy, c: Components, g: GridState, b: Balance)
    ensures Decision(d, c, g, b) == Some(SpawnWaveAction) ==>
      !(Ready(d, CorruptTileAction, b) && CanCorrupt(g, b.corruptionTileMax)) && WaveHasRoom(c, g, b)
    ensures Decision(d, c, g, b).Some? ==> Ready(d, Decision(d, c, g, b).value, b)
    ensures Decision(d, c, g, b).None? ==> !(Ready(d, CorruptTileAction, b) && CanCorrupt(g, b.corruptionTileMax))
    ensures Decision(d, c, g, b).None? ==> !(Ready(d, SpawnWaveAction, b) && WaveHasRoom(c, g, b))
  {
  }

  /** The doom-clock penalty an action costs, in seconds. */
  function Penalty(a: DarkAction, b: Balance): real
  {
    match a
    case CorruptTileAction => b.corruptTilePenaltySeconds
    case SpawnWaveAction => b.spawnWavePenaltySeconds
  }

  /**
   * The store `k`, which held `d`, pays for `a`, and the doom clocks lose
   * the action's penalty when it is positive.
   */
  function Charged(c: Components, k: Entity, d: DarkEnergy, a: DarkAction, b: Balance): (r: Components)
    ensures r.darkEnergy == c.darkEnergy[k := Paid(d, a, b)]
    ensures r.doomClock.Keys == c.doomClock.Keys
    ensures Penalty(a, b) <= 0.0 ==> r.doomClock == c.doomClock
    ensures 0.0 < Penalty(a, b) ==> forall e :: e in r.doomClock ==> 0.0 <= r.doomClock[e]
  {
    var paid := c.(darkEnergy := c.darkEnergy[k := Paid(d, a, b)]);
    if 0.0 < Penalty(a, b) then TickSystems.DoomShifted(paid, -Penalty(a, b)) else paid
  }

  /** Spawning monsters leaves the energy stores and the doom clocks alone. */
  lemma {:induction false} SpawnAllKeepsDarkAndDoom(c: Components, first: Entity, spawns: seq<MonsterSpawn>, n: nat, b: Balance)
    requires n <= |spawns|
    ensures SpawnUpTo(c, first, spawns, n, b).darkEnergy == c.darkEnergy
    ensures SpawnUpTo(c, first, spawns, n, b).doomClock == c.doomClock
    decreases n
  {
    if n != 0 {
      SpawnAllKeepsDarkAndDoom(c, first, spawns, n - 1, b);
    }
  }

  /** `setActionCooldown` with the debit before it, and the action's doom-clock penalty. */
  method PayForAction(w: World, k: Entity, a: DarkAction)
    requires w.Valid() && k in w.components.darkEnergy
    modifies w`components
    ensures w.Valid()
    ensures w.components == Charged(old(w.components), k, old(w.components.darkEnergy[k]), a, w.balance)
  {
    Combat.DarkUpdateWithin(w.components, k, Paid(w.components.darkEnergy[k], a, w.balance), w.entities);
    w.components := w.components.(darkEnergy := w.components.darkEnergy[k := Paid(w.components.darkEnergy[k], a, w.balance)]);
    if 0.0 < Penalty(a, w.balance) {
      TickSystems.AdjustDoomClock(w, -Penalty(a, w.balance));
    }
  }

  /** The corrupting branch of `executeDarkLordAction` for a ready store `k`. */
  method CorruptAndPay(w: World, k: Entity) returns (ok: bool)
    requires w.Valid() && k in w.components.darkEnergy
    modifies w`grid, w.rng, w`components
    ensures w.Valid()
    ensures ok <==> CanCorrupt(old(w.grid), w.balance.corruptionTileMax)
    ensures w.rng.state == XorShift.Iterate(old(w.rng.state), ShuffleDraws(|old(w.grid.tiles)|))
    ensures ok ==> CorruptStep(old(w.grid), w.grid, w.balance)
    ensures ok ==> w.components == Charged(old(w.components), k, old(w.components.darkEnergy[k]), CorruptTileAction, w.balance)
    ensures !ok ==> w.components == old(w.components) && w.grid == old(w.grid)
  {
    ok := TryCorruptTile(w);
    if ok {
      PayForAction(w, k, CorruptTileAction);
    }
  }

  /** The wave branch of `executeDarkLordAction` for a ready store `k`. */
  method SpawnAndPay(w: World, k: Entity) returns (wave: seq<TileSpot>)
    requires w.Valid() && k in w.components.darkEnergy
    modifies w.rng, w`nextEntityId, w`entities, w`components
    ensures w.Valid()
    ensures w.nextEntityId == old(w.nextEntityId) + |wave|
    ensures w.entities == old(w.entities) + IdRange(old(w.nextEntityId), w.nextEntityId)
    ensures w.rng.state == XorShift.Iterate(old(w.rng.state), WaveDraws(w.grid, w.balance))
    ensures |wave| > 0 <==> WaveHasRoom(old(w.components), w.grid, w.balance)
    ensures wave == [] ==> w.components == old(w.components)
    ensures wave != [] ==>
      w.components == Charged(SpawnAll(old(w.components), old(w.nextEntityId), Spawns(wave, w.balance.waveKind), w.balance),
              k, old(w.components.darkEnergy[k]), SpawnWaveAction, w.balance)
  {
    ghost var c0 := w.components;
    wave := TrySpawnWave(w);
    SpawnAllKeepsDarkAndDoom(c0, old(w.nextEntityId), Spawns(wave, w.balance.waveKind), |Spawns(wave, w.balance.waveKind)|, w.balance);
    if |wave| > 0 {
      PayForAction(w, k, SpawnWaveAction);
    }
  }

  /**
   * How many numbers `executeDarkLordAction` draws for the store `d`: a
   * ready corrupt action shuffles the tiles, and a ready wave shuffles the
   * edge cells unless the corruption has already succeeded.
   */
  ghost function ActionDraws(d: DarkEnergy, g: GridState, b: Balance): nat
  {
    (if Ready(d, CorruptTileAction, b) then ShuffleDraws(|g.tiles|) else 0) +
    (if Ready(d, CorruptTileAction, b) && CanCorrupt(g, b.corruptionTileMax) then 0
     else if Ready(d, SpawnWaveAction, b) then WaveDraws(g, b)
     else 0)
  }

  /** The part of the world an action can change. */
  datatype DarkState = DarkState(components: Components, grid: GridState, rng: bv32)

  function DarkSnapshot(w: World): DarkState
    reads w, w.rng
  {
    DarkState(w.components, w.grid, w.rng.state)
  }

  /**
   * What `executeDarkLordAction` does for the store `k`, which holds `d`,
   * from `s` to `t`, with `n` the next entity id: the action `Decision`
   * picks fires, and the generator has drawn what the attempts draw. A
   * corruption changes the grid as `CorruptStep` says and is paid for; a
   * wave spawns its monsters from id `n` on and is paid for; with no
   * action the store and the grid stay as they were.
   */
  ghost predicate ActionEffect(b: Balance, k: Entity, d: DarkEnergy, n: Entity, s: DarkState,
                               fired: Option<DarkAction>, wave: seq<TileSpot>, t: DarkState)
  {
    fired == Decision(d, s.components, s.grid, b) &&
    t.rng == XorShift.Iterate(s.rng, ActionDraws(d, s.grid, b)) &&
    (fired != Some(CorruptTileAction) ==> t.grid == s.grid) &&
    (fired != Some(SpawnWaveAction) ==> wave == []) &&
    (fired == None ==> t.components == s.components) &&
    (fired == Some(CorruptTileAction) ==>
       CorruptStep(s.grid, t.grid, b) && t.components == Charged(s.components, k, d, CorruptTileAction, b)) &&
    (fired == Some(SpawnWaveAction) ==>
       t.components == Charged(SpawnAll(s.components, n, Spawns(wave, b.waveKind), b), k, d, SpawnWaveAction, b))
  }

  /** A ready store corrupts when some tile can take corruption. */
  lemma CorruptFired(b: Balance, k: Entity, d: DarkEnergy, n: Entity, s: DarkState, t: DarkState)
    requires Ready(d, CorruptTileAction, b) && CanCorrupt(s.grid, b.corruptionTileMax)
    requires CorruptStep(s.grid, t.grid, b) && t.components == Charged(s.components, k, d, CorruptTileAction, b)
    requires t.rng == XorShift.Iterate(s.rng, ShuffleDraws(|s.grid.tiles|))
    ensures ActionEffect(b, k, d, n, s, Some(CorruptTileAction), [], t)
  {
  }

  /**
   * Without a corruption, a store ready for a wave sends one exactly when
   * the wave has room, and nothing fires otherwise.
   */
  lemma SpawnAttempted(b: Balance, k: Entity, d: DarkEnergy, n: Entity, s: DarkState, wave: seq<TileSpot>, t: DarkState)
    requires !(Ready(d, CorruptTileAction, b) && CanCorrupt(s.grid, b.corruptionTileMax))
    requires Ready(d, SpawnWaveAction, b)
    requires |wave| > 0 <==> WaveHasRoom(s.components, s.grid, b)
    requires t.grid == s.grid
    requires wave == [] ==> t.components == s.components
    requires wave != [] ==>
      t.components == Charged(SpawnAll(s.components, n, Spawns(wave, b.waveKind), b), k, d, SpawnWaveAction, b)
    requires t.rng == XorShift.Iterate(s.rng,
      (if Ready(d, CorruptTileAction, b) then ShuffleDraws(|s.grid.tiles|) else 0) + WaveDraws(s.grid, b))
    ensures ActionEffect(b, k, d, n, s, if wave == [] then None else Some(SpawnWaveAction), wave, t)
  {
  }

  /** With neither action possible, nothing fires and only the generator moves. */
  lemma NothingFired(b: Balance, k: Entity, d: DarkEnergy, n: Entity, s: DarkState, t: DarkState)
    requires !(Ready(d, CorruptTileAction, b) && CanCorrupt(s.grid, b.corruptionTileMax))
    requires !(Ready(d, SpawnWaveAction, b) && WaveHasRoom(s.components, s.grid, b))
    requires t.grid == s.grid && t.components == s.components
    requires t.rng == XorShift.Iterate(s.rng, ActionDraws(d, s.grid, b))
    ensures ActionEffect(b, k, d, n, s, None, [], t)
  {
  }

  /** The body of `executeDarkLordAction` once the store `k` is found. */
  method ActWith(w: World, k: Entity) returns (fired: Option<DarkAction>, wave: seq<TileSpot>)
    requires w.Valid() && k in w.components.darkEnergy
    modifies w`grid, w.rng, w`nextEntityId, w`entities, w`components
    ensures w.Valid()
    ensures w.nextEntityId == old(w.nextEntityId) + |wave|
    ensures w.entities == old(w.entities) + IdRange(old(w.nextEntityId), w.nextEntityId)
    ensures ActionEffect(w.balance, k, old(w.components.darkEnergy[k]), old(w.nextEntityId), old(DarkSnapshot(w)), fired, wave, DarkSnapshot(w))
  {
    var d := w.components.darkEnergy[k];
    ghost var s0 := DarkSnapshot(w);
    ghost var n := w.nextEntityId;
    ghost var corruptDraws := if Ready(d, CorruptTileAction, w.balance) then ShuffleDraws(|w.grid.tiles|) else 0;
    if Ready(d, CorruptTileAction, w.balance) {
      var ok := CorruptAndPay(w, k);
      if ok {
        CorruptFired(w.balance, k, d, n, s0, DarkSnapshot(w));
        return Some(CorruptTileAction), [];
      }
    }
    fired, wave := WaveStage(w, k, s0, corruptDraws);
  }

  /** The rest of `executeDarkLordAction` when no corruption happened: the wave, if the store is ready for it. */
  method WaveStage(w: World, k: Entity, ghost s0: DarkState, ghost corruptDraws: nat)
    returns (fired: Option<DarkAction>, wave: seq<TileSpot>)
    requires w.Valid() && k in w.components.darkEnergy
    requires w.components == s0.components && w.grid == s0.grid
    requires !(Ready(w.components.darkEnergy[k], CorruptTileAction, w.balance) && CanCorrupt(s0.grid, w.balance.corruptionTileMax))
    requires corruptDraws == if Ready(w.components.darkEnergy[k], CorruptTileAction, w.balance) then ShuffleDraws(|s0.grid.tiles|) else 0
    requires w.rng.state == XorShift.Iterate(s0.rng, corruptDraws)
    modifies w.rng, w`nextEntityId, w`entities, w`components
    ensures w.Valid()
    ensures w.nextEntityId == old(w.nextEntityId) + |wave|
    ensures w.entities == old(w.entities) + IdRange(old(w.nextEntityId), w.nextEntityId)
    ensures ActionEffect(w.balance, k, old(w.components.darkEnergy[k]), old(w.nextEntityId), s0, fired, wave, DarkSnapshot(w))
  {
    var d := w.components.darkEnergy[k];
    if Ready(d, SpawnWaveAction, w.balance) {
      fired, wave := SpawnStage(w, k, s0.rng, corruptDraws);
    } else {
      NothingFired(w.balance, k, d, w.nextEntityId, s0, DarkSnapshot(w));
      fired, wave := None, [];
    }
  }

  /** The wave attempt of a store that is ready for it. */
  method SpawnStage(w: World, k: Entity, ghost rng0: bv32, ghost corruptDraws: nat)
    returns (fired: Option<DarkAction>, wave: seq<TileSpot>)
    requires w.Valid() && k in w.components.darkEnergy
    requires !(Ready(w.components.darkEnergy[k], CorruptTileAction, w.balance) && CanCorrupt(w.grid, w.balance.corruptionTileMax))
    requires Ready(w.components.darkEnergy[k], SpawnWaveAction, w.balance)
    requires corruptDraws == if Ready(w.components.darkEnergy[k], CorruptTileAction, w.balance) then ShuffleDraws(|w.grid.tiles|) else 0
    requires w.rng.state == XorShift.Iterate(rng0, corruptDraws)
    modifies w.rng, w`nextEntityId, w`entities, w`components
    ensures w.Valid()
    ensures w.nextEntityId == old(w.nextEntityId) + |wave|
    ensures w.entities == old(w.entities) + IdRange(old(w.nextEntityId), w.nextEntityId)
    ensures ActionEffect(w.balance, k, old(w.components.darkEnergy[k]), old(w.nextEntityId),
      DarkState(old(w.components), old(w.grid), rng0), fired, wave, DarkSnapshot(w))
  {
    var d := w.components.darkEnergy[k];
    ghost var n := w.nextEntityId;
    ghost var s0 := DarkState(w.components, w.grid, rng0);
    wave := SpawnAndPay(w, k);
    XorShift.IterateAdd(s0.rng, corruptDraws, WaveDraws(w.grid, w.balance));
    SpawnAttempted(w.balance, k, d, n, s0, wave, DarkSnapshot(w));
    fired := if wave == [] then None else Some(SpawnWaveAction);
  }

  /**
   * `executeDarkLordAction`: the first energy store tries to corrupt a
   * tile, then to send a wave; the first that is affordable, off cooldown
   * and succeeds is paid for. Both attempts draw from the generator even
   * when they fail.
   */
  method ExecuteDarkLordAction(w: World) returns (fired: Option<DarkAction>, wave: seq<TileSpot>)
    requires w.Valid()
    modifies w`grid, w.rng, w`nextEntityId, w`entities, w`components
    ensures w.Valid()
    ensures w.nextEntityId == old(w.nextEntityId) + |wave|
    ensures w.entities == old(w.entities) + IdRange(old(w.nextEntityId), w.nextEntityId)
    ensures Combat.FirstKey(old(w.components.darkEnergy.Keys)).None? ==>
      fired == None && wave == [] && unchanged(w, w.rng)
    ensures Combat.FirstKey(old(w.components.darkEnergy.Keys)).Some? ==>
      var k := Combat.FirstKey(old(w.components.darkEnergy.Keys)).value;
      ActionEffect(w.balance, k, old(w.components.darkEnergy[k]), old(w.nextEntityId), old(DarkSnapshot(w)), fired, wave, DarkSnapshot(w))
  {
    var first := Combat.FirstDarkEnergy(w);
    if first.None? {
      return None, [];
    }
    fired, wave := ActWith(w, first.value);
  }

  // ---- The per-tick system ----

  /** `tiles.reduce(...)`: how many tiles are marked corrupted. */
  function CountCorrupted(tiles: seq<Tile>): (n: nat)
    ensures n <= |tiles|
  {
    if tiles == [] then 0
    else CountCorrupted(tiles[..|tiles| - 1]) + if tiles[|tiles| - 1].corrupted then 1 else 0
  }

  /** The count is 0 exactly when no tile is corrupted, and all tiles exactly when every one is. */
  lemma {:induction false} CountCorruptedExtremes(tiles: seq<Tile>)
    ensures CountCorrupted(tiles) == 0 <==> forall i :: 0 <= i < |tiles| ==> !tiles[i].corrupted
    ensures CountCorrupted(tiles) == |tiles| <==> forall i :: 0 <= i < |tiles| ==> tiles[i].corrupted
    decreases |tiles|
  {
    if tiles != [] {
      var n := |tiles| - 1;
      CountCorruptedExtremes(tiles[..n]);
      assert forall i :: 0 <= i < n ==> tiles[..n][i] == tiles[i];
    }
  }

  /** The energy gained per tick with `count` corrupted tiles: the base rate plus the rate per corrupted tile, per second, over the tick rate. */
  function GainFor(count: nat, b: Balance): real
    requires b.WellFormed()
  {
    var secondsPerTick := 1.0 / b.ticksPerSecond as real;
    b.baseGainPerSecond * secondsPerTick + count as real * b.perCorruptedTileGain * secondsPerTick
  }

  /** The energy gained per tick on grid `g`. */
  function GainPerTick(g: GridState, b: Balance): real
    requires b.WellFormed()
  {
    GainFor(CountCorrupted(g.tiles), b)
  }

  /** With non-negative rates, more corrupted tiles never give less energy. */
  lemma GainGrowsWithCorruption(m: nat, n: nat, b: Balance)
    requires b.WellFormed() && 0.0 <= b.perCorruptedTileGain
    requires m <= n
    ensures GainFor(m, b) <= GainFor(n, b)
  {
    InversePositive(b.ticksPerSecond);
    RateMonotone(b.baseGainPerSecond, 1.0 / b.ticksPerSecond as real, b.perCorruptedTileGain, m as real, n as real);
  }

  lemma RateMonotone(base: real, spt: real, rate: real, x: real, y: real)
    requires x <= y && 0.0 <= rate && 0.0 <= spt
    ensures base * spt + x * rate * spt <= base * spt + y * rate * spt
  {
    ScaleMonotone(x, y, rate);
    ScaleMonotone(x * rate, y * rate, spt);
  }

  lemma InversePositive(t: int)
    requires 0 < t
    ensures 0.0 < 1.0 / t as real
  {
  }

  lemma ScaleMonotone(x: real, y: real, z: real)
    requires x <= y && 0.0 <= z
    ensures x * z <= y * z
  {
  }

  /** A cooldown ticking down by one, never below what it was when not positive. */
  function TickDown(t: int): (r: int)
    ensures 0 < t ==> r == t - 1
    ensures t <= 0 ==> r == t
  {
    if t > 0 then t - 1 else t
  }

  /** The cadence counter after one tick: one more, back to 0 once it reaches the cadence. */
  function NextCount(counter: int, cadence: int): (r: int)
    ensures counter + 1 < cadence ==> r == counter + 1
    ensures cadence <= counter + 1 ==> r == 0
  {
    if counter + 1 >= cadence then 0 else counter + 1
  }

  /** The store after one tick of `darkLordSystem`, before any action: energy gained, cooldowns and counter advanced. */
  function Recharged(d: DarkEnergy, gain: real): (r: DarkEnergy)
    ensures r.value == d.value + gain && r.cadenceTicks == d.cadenceTicks
    ensures r.cooldowns == Cooldowns(TickDown(d.cooldowns.corruptTile), TickDown(d.cooldowns.spawnWave), TickDown(d.cooldowns.drainClock))
    ensures r.cadenceCounter == NextCount(d.cadenceCounter, d.cadenceTicks)
  {
    d.(value := d.value + gain,
       cooldowns := Cooldowns(TickDown(d.cooldowns.corruptTile), TickDown(d.cooldowns.spawnWave), TickDown(d.cooldowns.drainClock)),
       cadenceCounter := NextCount(d.cadenceCounter, d.cadenceTicks))
  }

  /** A cooldown that starts at `t` has run out after `t` ticks and stays out. */
  lemma {:induction false} CooldownRunsOut(t: int, n: nat)
    requires 0 <= t && t <= n
    ensures TicksDown(t, n) == 0
    decreases n
  {
    if n > 0 && t > 0 {
      CooldownRunsOut(t - 1, n - 1);
    } else if n > 0 {
      CooldownRunsOut(t, n - 1);
    }
  }

  /** A cooldown after `n` ticks. */
  function TicksDown(t: int, n: nat): int
    decreases n
  {
    if n == 0 then t else TicksDown(TickDown(t), n - 1)
  }

  /** The counter after `n` ticks from `counter`. */
  function CountAfter(counter: int, cadence: int, n: nat): int
    decreases n
  {
    if n == 0 then counter else CountAfter(NextCount(counter, cadence), cadence, n - 1)
  }

  /**
   * From a fresh counter the action is due every `cadence` ticks: the
   * counter reads `j` after `j < cadence` ticks and is back at 0 after
   * exactly `cadence` of them.
   */
  lemma {:induction false} CadenceCycle(cadence: int, j: nat)
    requires 1 <= cadence && j <= cadence
    ensures CountAfter(0, cadence, j) == if j == cadence then 0 else j
    decreases j
  {
    if j > 0 {
      CountAfterLast(0, cadence, j - 1);
      CadenceCycle(cadence, j - 1);
    }
  }

  /** One more tick advances the counter once more. */
  lemma {:induction false} CountAfterLast(counter: int, cadence: int, n: nat)
    ensures CountAfter(counter, cadence, n + 1) == NextCount(CountAfter(counter, cadence, n), cadence)
    decreases n
  {
    if n > 0 {
      CountAfterLast(NextCount(counter, cadence), cadence, n - 1);
    }
  }

  /**
   * `darkLordSystem`: the first energy store gains its per-tick energy,
   * its running cooldowns tick down by one and its counter advances; when
   * the counter reaches the cadence it restarts at 0 and the Dark Lord
   * acts on the recharged store as `ActionEffect` says, `wave` being the
   * cells of any monsters it sent.
   */
  method DarkLordSystem(w: World) returns (fired: Option<DarkAction>, wave: seq<TileSpot>)
    requires w.Valid()
    modifies w`grid, w.rng, w`nextEntityId, w`entities, w`components
    ensures w.Valid()
    ensures w.nextEntityId == old(w.nextEntityId) + |wave|
    ensures w.entities == old(w.entities) + IdRange(old(w.nextEntityId), w.nextEntityId)
    ensures Combat.FirstKey(old(w.components.darkEnergy.Keys)).None? ==>
      fired == None && wave == [] && unchanged(w, w.rng)
    ensures Combat.FirstKey(old(w.components.darkEnergy.Keys)).Some? ==>
      var k := Combat.FirstKey(old(w.components.darkEnergy.Keys)).value;
      var d := old(w.components.darkEnergy[k]);
      var charged := Recharged(d, GainPerTick(old(w.grid), w.balance));
      var recharged := old(w.components).(darkEnergy := old(w.components.darkEnergy)[k := charged]);
      (d.cadenceCounter + 1 < d.cadenceTicks ==>
         fired == None && wave == [] && w.components == recharged &&
         w.grid == old(w.grid) && w.rng.state == old(w.rng.state)) &&
      (d.cadenceTicks <= d.cadenceCounter + 1 ==>
         ActionEffect(w.balance, k, charged, old(w.nextEntityId),
           DarkState(recharged, old(w.grid), old(w.rng.state)), fired, wave, DarkSnapshot(w)))
  {
    var first := Combat.FirstDarkEnergy(w);
    if first.None? {
      return None, [];
    }
    var k := first.value;
    var d := w.components.darkEnergy[k];
    var gain := GainPerTick(w.grid, w.balance);
    Combat.DarkUpdateWithin(w.components, k, Recharged(d, gain), w.entities);
    ghost var c0 := w.components;
    w.components := w.components.(darkEnergy := w.components.darkEnergy[k := Recharged(d, gain)]);
    assert w.components.darkEnergy.Keys == c0.darkEnergy.Keys;
    if d.cadenceCounter + 1 >= d.cadenceTicks {
      fired, wave := ExecuteDarkLordAction(w);
    } else {
      fired, wave := None, [];
    }
  }
}
