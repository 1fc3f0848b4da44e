/**
 * Monsters reaching a town, from src/logic/systems.ts: `neighborTiles`,
 * `findTownAt` and `handleTownContact`.
 *
 * `findTownAt` walks the transform table, which gains entries in ascending
 * id order, so the town it finds is the least id standing on the tile.
 */
module Towns {
  import opened Wrappers
  import opened Numbers
  import opened Grid
  import Pathfinding
  import opened Ecs
  import TickSystems
  import Combat

  // ---- Neighbouring tiles ----

  /** The four candidate neighbours, in the order right, left, down, up. */
  function Around(x: int, y: int): seq<TileSpot>
  {
    [TileSpot(x + 1, y), TileSpot(x - 1, y), TileSpot(x, y + 1), TileSpot(x, y - 1)]
  }

  /** The spots of `spots` inside the grid, in order. */
  function InsideOnly(g: GridState, spots: seq<TileSpot>): (r: seq<TileSpot>)
    ensures |r| <= |spots|
    ensures forall s :: s in r <==> s in spots && g.InBounds(s.tileX, s.tileY)
  {
    if spots == [] then []
    else if g.InBounds(spots[0].tileX, spots[0].tileY) then [spots[0]] + InsideOnly(g, spots[1..])
    else InsideOnly(g, spots[1..])
  }

  /** A tile spot as a pathfinding cell, so that spots share `Pathfinding.Adjacent`. */
  function AsPoint(s: TileSpot): Pathfinding.Point
  {
    Pathfinding.Point(s.tileX, s.tileY)
  }

  /**
   * `neighborTiles`: the in-bounds 4-neighbours of (x, y), at most four,
   * each once, in the order right, left, down, up.
   */
  function NeighborTiles(g: GridState, x: int, y: int): (r: seq<TileSpot>)
    ensures |r| <= 4
    ensures forall s :: s in r <==> g.InBounds(s.tileX, s.tileY) && Pathfinding.Adjacent(AsPoint(s), Pathfinding.Point(x, y))
  {
    InsideOnly(g, Around(x, y))
  }

  // ---- Finding a town ----

  /** `e` is a town standing on (x, y). */
  predicate TownAt(c: Components, e: Entity, x: int, y: int)
  {
    e in c.town && e in c.transforms && c.transforms[e] == Transform(x, y)
  }

  /** `r` is the least town on (x, y), or none when no town stands there. */
  ghost predicate IsTownAt(c: Components, x: int, y: int, r: Option<Entity>)
  {
    match r
    case None => forall e :: !TownAt(c, e, x, y)
    case Some(t) => TownAt(c, t, x, y) && forall e :: TownAt(c, e, x, y) ==> t <= e
  }

  /** `findTownAt`: the first town in the transform table standing on (x, y). */
  method FindTownAt(w: World, x: int, y: int) returns (r: Option<Entity>)
    requires w.Valid()
    ensures IsTownAt(w.components, x, y, r)
  {
    var c := w.components;
    forall e | TownAt(c, e, x, y)
      ensures 1 <= e < w.nextEntityId
    {
      assert c.Has(e);
    }
    for id := 1 to w.nextEntityId
      invariant forall e :: 1 <= e < id ==> !TownAt(c, e, x, y)
    {
      if id in c.transforms && id in c.town && c.transforms[id] == Transform(x, y) {
        return Some(id);
      }
    }
    return None;
  }

  // ---- Town contact ----

  /** A town tile at `s` with a town entity on it. */
  ghost predicate Contactable(c: Components, g: GridState, s: TileSpot)
    requires g.Valid()
  {
    var tile := GetTile(g, s.tileX, s.tileY);
    tile.Some? && tile.value.kind == TileType.Town && exists e :: TownAt(c, e, s.tileX, s.tileY)
  }

  /** The first spot of `spots` a monster can attack a town on. */
  ghost function FirstContactable(c: Components, g: GridState, spots: seq<TileSpot>): (r: Option<TileSpot>)
    requires g.Valid()
    ensures r.Some? ==> r.value in spots && Contactable(c, g, r.value)
    ensures r.None? <==> forall s :: s in spots ==> !Contactable(c, g, s)
  {
    if spots == [] then None
    else if Contactable(c, g, spots[0]) then Some(spots[0])
    else FirstContactable(c, g, spots[1..])
  }

  /** The spots `handleTownContact` looks at: the monster's own tile, then its neighbours. */
  function ContactSpots(g: GridState, x: int, y: int): seq<TileSpot>
  {
    [TileSpot(x, y)] + NeighborTiles(g, x, y)
  }

  /** The town attacked from (x, y) is on that tile or one step away. */
  lemma ContactIsClose(c: Components, g: GridState, x: int, y: int)
    requires g.Valid()
    ensures FirstContactable(c, g, ContactSpots(g, x, y)).Some? ==>
      var s := FirstContactable(c, g, ContactSpots(g, x, y)).value;
      s == TileSpot(x, y) || Pathfinding.Adjacent(AsPoint(s), Pathfinding.Point(x, y))
  {
  }

  /** The town tile after a hit: progress grows by the rate, capped at 1, and corruption follows it up. */
  function Contacted(t: Tile, perTick: real): (r: Tile)
    ensures r.kind == t.kind && r.corrupted == t.corrupted && r.corrupting == t.corrupting
    ensures r.corruptProgress <= 1.0
    ensures t.corruptProgress <= 1.0 && 0.0 <= perTick ==> t.corruptProgress <= r.corruptProgress
    ensures t.corruption <= r.corruption && r.corruptProgress <= r.corruption
  {
    var progress := if 1.0 < t.corruptProgress + perTick then 1.0 else t.corruptProgress + perTick;
    t.(corruptProgress := progress, corruption := if t.corruption < progress then progress else t.corruption)
  }

  /** The town table after `t` takes `damage`: integrity floored at 0, and the town deleted when it reaches 0. */
  function TownsHit(towns: map<Entity, Town>, t: Entity, damage: int): map<Entity, Town>
    requires t in towns
  {
    var integrity := Max0(towns[t].integrity - damage);
    if integrity == 0 then towns - {t}
    else towns[t := towns[t].(integrity := integrity)]
  }

  /**
   * The town survives exactly when its integrity stays above 0, then
   * holding `integrity - damage`; no other town changes.
   */
  lemma TownsHitEffect(towns: map<Entity, Town>, t: Entity, damage: int)
    requires t in towns
    ensures t in TownsHit(towns, t, damage) <==> towns[t].integrity - damage > 0
    ensures t in TownsHit(towns, t, damage) ==> TownsHit(towns, t, damage)[t] == towns[t].(integrity := towns[t].integrity - damage)
    ensures forall e :: e != t ==> Agree(TownsHit(towns, t, damage), towns, e)
    ensures TownsHit(towns, t, damage).Keys <= towns.Keys
  {
  }

  /** The store after a hit on town `t`. */
  function TownHit(c: Components, t: Entity, damage: int): Components
    requires t in c.town
  {
    c.(town := TownsHit(c.town, t, damage))
  }

  /** A hit adds no component, so the store still belongs to the live entities. */
  lemma TownHitWithin(c: Components, t: Entity, damage: int, s: set<Entity>)
    requires t in c.town && c.Within(s)
    ensures TownHit(c, t, damage).Within(s)
  {
    TownsHitEffect(c.town, t, damage);
    var r := TownHit(c, t, damage);
    forall x | r.Has(x)
      ensures x in s
    {
      assert c.Has(x);
    }
  }

  /** The doom clocks after a town takes damage: the penalty, when positive. */
  function TownPenalized(c: Components, b: Balance): Components
  {
    if 0.0 < b.townDamagePenaltySeconds then TickSystems.DoomShifted(c, -b.townDamagePenaltySeconds) else c
  }

  /** The first contactable spot of the list, with the town found on it. */
  method FindContactTarget(w: World, spots: seq<TileSpot>) returns (r: Option<(TileSpot, Entity)>)
    requires w.Valid()
    ensures r.None? <==> FirstContactable(w.components, w.grid, spots).None?
    ensures r.Some? ==> Some(r.value.0) == FirstContactable(w.components, w.grid, spots)
    ensures r.Some? ==> IsTownAt(w.components, r.value.0.tileX, r.value.0.tileY, Some(r.value.1))
  {
    for i := 0 to |spots|
      invariant FirstContactable(w.components, w.grid, spots[i..]) == FirstContactable(w.components, w.grid, spots)
    {
      assert spots[i..][0] == spots[i] && spots[i..][1..] == spots[i + 1..];
      var s := spots[i];
      var tile := GetTile(w.grid, s.tileX, s.tileY);
      if tile.Some? && tile.value.kind == TileType.Town {
        var t := FindTownAt(w, s.tileX, s.tileY);
        if t.Some? {
          return Some((s, t.value));
        }
      }
    }
    assert spots[|spots|..] == [];
    return None;
  }

  /** The effect of a monster's hit on town `t`, whose tile is `s`. */
  method StrikeTown(w: World, s: TileSpot, t: Entity, corrupting: set<int>) returns (out: set<int>)
    requires w.Valid() && t in w.components.town && w.grid.InBounds(s.tileX, s.tileY)
    modifies w`components, w`grid
    ensures w.Valid()
    ensures out == corrupting + {GridIndex(old(w.grid), s.tileX, s.tileY)}
    ensures w.grid == SetTile(old(w.grid), s.tileX, s.tileY,
                              Contacted(GetTile(old(w.grid), s.tileX, s.tileY).value, w.balance.corruptProgressPerTick))
    ensures w.components == TownPenalized(TownHit(old(w.components), t, w.balance.monsterAttackDamage), w.balance)
  {
    var tile := GetTile(w.grid, s.tileX, s.tileY).value;
    out := corrupting + {GridIndex(w.grid, s.tileX, s.tileY)};
    TownHitWithin(w.components, t, w.balance.monsterAttackDamage, w.entities);
    w.components := TownHit(w.components, t, w.balance.monsterAttackDamage);
    w.grid := SetTile(w.grid, s.tileX, s.tileY, Contacted(tile, w.balance.corruptProgressPerTick));
    if 0.0 < w.balance.townDamagePenaltySeconds {
      TickSystems.AdjustDoomClock(w, -w.balance.townDamagePenaltySeconds);
    }
  }

  /**
   * `handleTownContact` for a monster on (x, y): the town on its tile, or
   * else on the first neighbouring town tile, loses the attack damage in
   * integrity and is deleted at 0; its tile's corruption progress grows,
   * its index joins the set of tiles under attack, and the doom clocks pay
   * the town-damage penalty. With no town in reach nothing changes.
   */
  method HandleTownContact(w: World, x: int, y: int, corrupting: set<int>) returns (out: set<int>, hit: Option<(TileSpot, Entity)>)
    requires w.Valid()
    modifies w`components, w`grid
    ensures w.Valid()
    ensures hit.None? <==> FirstContactable(old(w.components), old(w.grid), ContactSpots(old(w.grid), x, y)).None?
    ensures hit.None? ==> out == corrupting && w.components == old(w.components) && w.grid == old(w.grid)
    ensures hit.Some? ==> Some(hit.value.0) == FirstContactable(old(w.components), old(w.grid), ContactSpots(old(w.grid), x, y))
    ensures hit.Some? ==> IsTownAt(old(w.components), hit.value.0.tileX, hit.value.0.tileY, Some(hit.value.1))
    ensures hit.Some? ==> old(w.grid).InBounds(hit.value.0.tileX, hit.value.0.tileY)
    ensures hit.Some? ==> out == corrupting + {GridIndex(old(w.grid), hit.value.0.tileX, hit.value.0.tileY)}
    ensures hit.Some? ==>
      w.grid == SetTile(old(w.grid), hit.value.0.tileX, hit.value.0.tileY,
                        Contacted(GetTile(old(w.grid), hit.value.0.tileX, hit.value.0.tileY).value, w.balance.corruptProgressPerTick))
    ensures hit.Some? ==> w.components == TownPenalized(TownHit(old(w.components), hit.value.1, w.balance.monsterAttackDamage), w.balance)
  {
    out := corrupting;
    hit := FindContactTarget(w, ContactSpots(w.grid, x, y));
    if hit.Some? {
      out := StrikeTown(w, hit.value.0, hit.value.1, corrupting);
    }
  }
}
