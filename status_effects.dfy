/**
 * `statusEffectSystem` of src/logic/systems.ts: rally auras count down
 * their active time and then their cooldown, cleanse channels count down
 * and scrub their target tile while active, and every town's `rallied`
 * flag is set from its aura.
 *
 * Each table is walked in insertion order, which is ascending id.
 */
module StatusEffects {
  import opened Wrappers
  import opened Numbers
  import opened Grid
  import opened Ecs

  // ---- Rally auras ----

  /** One tick of a rally aura: active time first, then, once it is spent, the cooldown. */
  function TickAura(a: RallyAura): (r: RallyAura)
    ensures r.radius == a.radius && r.bonus == a.bonus && r.durationTicks == a.durationTicks
    ensures 0 <= r.remainingTicks
    ensures a.remainingTicks > 1 ==> r.remainingTicks == a.remainingTicks - 1 && r.cooldownTicks == a.cooldownTicks
    ensures a.remainingTicks <= 1 ==> r.remainingTicks == 0
    ensures a.remainingTicks <= 1 ==> r.cooldownTicks == (if a.cooldownTicks > 0 then a.cooldownTicks - 1 else a.cooldownTicks)
  {
    var remaining := if a.remainingTicks > 0 then a.remainingTicks - 1 else a.remainingTicks;
    if remaining <= 0 then
      a.(remainingTicks := 0, cooldownTicks := if a.cooldownTicks > 0 then a.cooldownTicks - 1 else a.cooldownTicks)
    else a.(remainingTicks := remaining)
  }

  /** The aura after `n` ticks. */
  function AuraAfter(a: RallyAura, n: nat): RallyAura
    decreases n
  {
    if n == 0 then a else AuraAfter(TickAura(a), n - 1)
  }

  /** `triggerRally` may place a new aura: nothing active and no cooldown left. */
  predicate AuraReady(a: RallyAura)
  {
    a.remainingTicks <= 0 && a.cooldownTicks <= 0
  }

  function Nat(v: int): nat
  {
    if v < 0 then 0 else v
  }

  /** After one or more ticks the active time left is the old one minus the ticks, stopping at 0. */
  lemma {:induction false} AuraCountsDown(a: RallyAura, n: nat)
    requires 1 <= n
    ensures AuraAfter(a, n).remainingTicks == Nat(a.remainingTicks - n)
    decreases n
  {
    if n > 1 {
      AuraCountsDown(TickAura(a), n - 1);
    }
  }

  /** A ready aura stays ready. */
  lemma ReadyStaysReady(a: RallyAura)
    requires AuraReady(a)
    ensures AuraReady(TickAura(a))
  {
  }

  /** An aura is ready again at the latest after its active time plus its cooldown. */
  lemma {:induction false} AuraReadyAfter(a: RallyAura, n: nat)
    requires Nat(a.remainingTicks) + Nat(a.cooldownTicks) <= n
    ensures AuraReady(AuraAfter(a, n))
    decreases n
  {
    if n == 0 {
    } else if AuraReady(a) {
      ReadyStaysReady(a);
      AuraReadyAfter(TickAura(a), n - 1);
    } else {
      var b := TickAura(a);
      assert Nat(b.remainingTicks) + Nat(b.cooldownTicks) <= n - 1;
      AuraReadyAfter(b, n - 1);
    }
  }

  function TickedAuras(m: map<Entity, RallyAura>): (r: map<Entity, RallyAura>)
    ensures r.Keys == m.Keys
  {
    map e | e in m :: TickAura(m[e])
  }

  // ---- Cleanse channels ----

  /** One tick of a cleanse channel: the channel time runs down first, then the cooldown. */
  function TickChannel(ch: CleanseChannel): (r: CleanseChannel)
    ensures r.totalTicks == ch.totalTicks && r.targetTileX == ch.targetTileX && r.targetTileY == ch.targetTileY
    ensures ch.tLeftTicks > 0 ==> r == ch.(tLeftTicks := ch.tLeftTicks - 1)
    ensures ch.tLeftTicks <= 0 && ch.cooldownTicks > 0 ==> r == ch.(cooldownTicks := ch.cooldownTicks - 1)
    ensures ch.tLeftTicks <= 0 && ch.cooldownTicks <= 0 ==> r == ch
  {
    if ch.tLeftTicks > 0 then
      var left := ch.tLeftTicks - 1;
      ch.(tLeftTicks := if left <= 0 then 0 else left)
    else if ch.cooldownTicks > 0 then ch.(cooldownTicks := ch.cooldownTicks - 1)
    else ch
  }

  function TickedChannels(m: map<Entity, CleanseChannel>): (r: map<Entity, CleanseChannel>)
    ensures r.Keys == m.Keys
  {
    map e | e in m :: TickChannel(m[e])
  }

  /** The smallest corruption or progress still counted as present. */
  const TRACE: real := 0.0001

  /** One tick of scrubbing on a tile: both corruption and progress fall, traces are wiped. */
  function Scrubbed(t: Tile, reduction: real): (r: Tile)
    ensures r.kind == t.kind
    ensures 0.0 <= r.corruption && 0.0 <= r.corruptProgress
    ensures r.corruption == 0.0 || TRACE < r.corruption
    ensures r.corrupted <==> r.corruption > 0.0
    ensures r.corruptProgress == 0.0 ==> !r.corrupting
    ensures 0.0 <= reduction && 0.0 <= t.corruption ==> r.corruption <= t.corruption
    ensures 0.0 <= reduction && 0.0 <= t.corruptProgress ==> r.corruptProgress <= t.corruptProgress
  {
    var corruption := Max0Real(t.corruption - reduction);
    var progress := Max0Real(t.corruptProgress - reduction);
    var corruption' := if corruption <= TRACE then 0.0 else corruption;
    var wiped := progress <= TRACE;
    t.(corruption := corruption',
       corruptProgress := if wiped then 0.0 else progress,
       corrupting := if wiped then false else t.corrupting,
       corrupted := corruption' > TRACE)
  }

  /** The grid after one channel's tick: an active channel scrubs its target tile, if that tile exists. */
  function ScrubStep(g: GridState, ch: CleanseChannel, reduction: real): (r: GridState)
    requires g.Valid()
    ensures r.Valid() && r.width == g.width && r.height == g.height
  {
    if ch.tLeftTicks > 0 && g.InBounds(ch.targetTileX, ch.targetTileY) then
      var tile := GetTile(g, ch.targetTileX, ch.targetTileY).value;
      SetTile(g, ch.targetTileX, ch.targetTileY, Scrubbed(tile, reduction))
    else g
  }

  /** The grid after the channels of the ids below `n` have ticked, in ascending id order. */
  function ScrubUpTo(g: GridState, m: map<Entity, CleanseChannel>, n: int, reduction: real): (r: GridState)
    requires g.Valid()
    ensures r.Valid() && r.width == g.width && r.height == g.height
    decreases n
  {
    if n <= 1 then g
    else
      var before := ScrubUpTo(g, m, n - 1, reduction);
      if n - 1 in m then ScrubStep(before, m[n - 1], reduction) else before
  }

  /** Scrubbing never raises a tile's corruption or progress and leaves its kind alone. */
  lemma {:induction false} ScrubUpToNeverCorrupts(g: GridState, m: map<Entity, CleanseChannel>, n: int, reduction: real, x: int, y: int)
    requires g.Valid() && g.InBounds(x, y) && 0.0 <= reduction
    requires 0.0 <= GetTile(g, x, y).value.corruption && 0.0 <= GetTile(g, x, y).value.corruptProgress
    ensures GetTile(ScrubUpTo(g, m, n, reduction), x, y).value.kind == GetTile(g, x, y).value.kind
    ensures GetTile(ScrubUpTo(g, m, n, reduction), x, y).value.corruption <= GetTile(g, x, y).value.corruption
    ensures GetTile(ScrubUpTo(g, m, n, reduction), x, y).value.corruptProgress <= GetTile(g, x, y).value.corruptProgress
    ensures 0.0 <= GetTile(ScrubUpTo(g, m, n, reduction), x, y).value.corruption
    ensures 0.0 <= GetTile(ScrubUpTo(g, m, n, reduction), x, y).value.corruptProgress
    decreases n
  {
    if n > 1 {
      var before := ScrubUpTo(g, m, n - 1, reduction);
      ScrubUpToNeverCorrupts(g, m, n - 1, reduction, x, y);
      if n - 1 in m {
        ScrubStepFrame(before, m[n - 1], reduction, x, y);
      }
    }
  }

  /** One scrub changes at most its target tile, and that one only downwards. */
  lemma ScrubStepFrame(g: GridState, ch: CleanseChannel, reduction: real, x: int, y: int)
    requires g.Valid() && g.InBounds(x, y) && 0.0 <= reduction
    requires 0.0 <= GetTile(g, x, y).value.corruption && 0.0 <= GetTile(g, x, y).value.corruptProgress
    ensures GetTile(ScrubStep(g, ch, reduction), x, y).value.kind == GetTile(g, x, y).value.kind
    ensures GetTile(ScrubStep(g, ch, reduction), x, y).value.corruption <= GetTile(g, x, y).value.corruption
    ensures GetTile(ScrubStep(g, ch, reduction), x, y).value.corruptProgress <= GetTile(g, x, y).value.corruptProgress
    ensures 0.0 <= GetTile(ScrubStep(g, ch, reduction), x, y).value.corruption
    ensures 0.0 <= GetTile(ScrubStep(g, ch, reduction), x, y).value.corruptProgress
    ensures !(ch.tLeftTicks > 0 && x == ch.targetTileX && y == ch.targetTileY) ==>
      GetTile(ScrubStep(g, ch, reduction), x, y) == GetTile(g, x, y)
  {
    if ch.tLeftTicks > 0 && g.InBounds(ch.targetTileX, ch.targetTileY) {
      var tile := GetTile(g, ch.targetTileX, ch.targetTileY).value;
      SetTileFrame(g, ch.targetTileX, ch.targetTileY, Scrubbed(tile, reduction));
    }
  }

  // ---- Towns ----

  /** `hasActiveRally`: the entity has an aura with active time left. */
  predicate HasActiveRally(auras: map<Entity, RallyAura>, e: Entity)
  {
    e in auras && auras[e].remainingTicks > 0
  }

  /** Every town's `rallied` flag, set from `hasActiveRally`. */
  function RalliedTowns(towns: map<Entity, Town>, auras: map<Entity, RallyAura>): (r: map<Entity, Town>)
    ensures r.Keys == towns.Keys
    ensures forall e :: e in r ==> r[e].integrity == towns[e].integrity
    ensures forall e :: e in r ==> (r[e].rallied == Some(true) <==> e in auras && auras[e].remainingTicks > 0)
    ensures forall e :: e in r ==> r[e].rallied != None
  {
    map e | e in towns :: towns[e].(rallied := Some(HasActiveRally(auras, e)))
  }

  // ---- The system ----

  /** Replacing tables by ones with the same keys keeps the store within the same entities. */
  lemma StatusTablesWithin(c: Components, d: Components, s: set<Entity>)
    requires c.Within(s)
    requires d == c.(rallyAura := d.rallyAura, cleanse := d.cleanse, town := d.town)
    requires d.rallyAura.Keys == c.rallyAura.Keys && d.cleanse.Keys == c.cleanse.Keys && d.town.Keys == c.town.Keys
    ensures d.Within(s)
  {
    forall x | d.Has(x)
      ensures x in s
    {
      assert c.Has(x);
    }
  }

  /** The rally loop of `statusEffectSystem`. */
  method TickRallyAuras(w: World)
    requires w.Valid()
    modifies w`components
    ensures w.Valid()
    ensures w.components == old(w.components).(rallyAura := TickedAuras(old(w.components.rallyAura)))
  {
    var c := w.components;
    var m := c.rallyAura;
    forall e | e in m
      ensures 1 <= e < w.nextEntityId
    {
      assert c.Has(e);
    }
    var out := m;
    for id := 1 to w.nextEntityId
      invariant out.Keys == m.Keys
      invariant forall e :: e in m ==> out[e] == if e < id then TickAura(m[e]) else m[e]
    {
      if id in out {
        out := out[id := TickAura(out[id])];
      }
    }
    assert out == TickedAuras(m);
    StatusTablesWithin(c, c.(rallyAura := out), w.entities);
    w.components := c.(rallyAura := out);
  }

  /** The cleanse loop of `statusEffectSystem`: channels tick and scrub their targets. */
  method TickCleanseChannels(w: World)
    requires w.Valid()
    modifies w`components, w`grid
    ensures w.Valid()
    ensures w.components == old(w.components).(cleanse := TickedChannels(old(w.components.cleanse)))
    ensures w.grid == ScrubUpTo(old(w.grid), old(w.components.cleanse), w.nextEntityId, w.balance.cleanseReductionPerTick)
  {
    var c := w.components;
    var m := c.cleanse;
    var g0 := w.grid;
    var reduction := w.balance.cleanseReductionPerTick;
    forall e | e in m
      ensures 1 <= e < w.nextEntityId
    {
      assert c.Has(e);
    }
    var out := m;
    for id := 1 to w.nextEntityId
      invariant out.Keys == m.Keys
      invariant forall e :: e in m ==> out[e] == if e < id then TickChannel(m[e]) else m[e]
      invariant w.grid == ScrubUpTo(g0, m, id, reduction)
    {
      if id in out {
        var ch := out[id];
        if ch.tLeftTicks > 0 {
          var tile := GetTile(w.grid, ch.targetTileX, ch.targetTileY);
          if tile.Some? {
            w.grid := SetTile(w.grid, ch.targetTileX, ch.targetTileY, Scrubbed(tile.value, reduction));
          }
        }
        out := out[id := TickChannel(ch)];
      }
    }
    assert out == TickedChannels(m);
    StatusTablesWithin(c, c.(cleanse := out), w.entities);
    w.components := c.(cleanse := out);
  }

  /** The town loop of `statusEffectSystem`: each town is rallied exactly when its aura is active. */
  method SyncRallied(w: World)
    requires w.Valid()
    modifies w`components
    ensures w.Valid()
    ensures w.components == old(w.components).(town := RalliedTowns(old(w.components.town), old(w.components.rallyAura)))
  {
    var c := w.components;
    var m := c.town;
    forall e | e in m
      ensures 1 <= e < w.nextEntityId
    {
      assert c.Has(e);
    }
    var out := m;
    for id := 1 to w.nextEntityId
      invariant out.Keys == m.Keys
      invariant forall e :: e in m ==> out[e] == if e < id then m[e].(rallied := Some(HasActiveRally(c.rallyAura, e))) else m[e]
    {
      if id in out {
        out := out[id := out[id].(rallied := Some(HasActiveRally(c.rallyAura, id)))];
      }
    }
    assert out == RalliedTowns(m, c.rallyAura);
    StatusTablesWithin(c, c.(town := out), w.entities);
    w.components := c.(town := out);
  }

  /**
   * `statusEffectSystem`: auras and channels tick, active channels scrub
   * their tiles, and each town's flag follows its freshly ticked aura.
   */
  method StatusEffectSystem(w: World)
    requires w.Valid()
    modifies w`components, w`grid
    ensures w.Valid()
    ensures w.components == old(w.components).(
      rallyAura := TickedAuras(old(w.components.rallyAura)),
      cleanse := TickedChannels(old(w.components.cleanse)),
      town := RalliedTowns(old(w.components.town), TickedAuras(old(w.components.rallyAura))))
    ensures w.grid == ScrubUpTo(old(w.grid), old(w.components.cleanse), w.nextEntityId, w.balance.cleanseReductionPerTick)
  {
    TickRallyAuras(w);
    TickCleanseChannels(w);
    SyncRallied(w);
  }
}
