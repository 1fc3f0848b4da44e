/**
 * Click combat of src/logic/systems.ts: `findTopClickable`,
 * `computeClickDamage`, `pushFloatingNumber`, `onEntityDefeated`,
 * `getDarkEnergy` and `combatResolutionSystem`.
 *
 * The entity set and every component table are filled in ascending id
 * order (ids come from a counter and tables gain an entry when the entity
 * is made), so "the first entry a `Map` or `Set` iteration visits" is the
 * least id in it, and iterating `world.entities` visits ids upwards.
 */
module Combat {
  import opened Wrappers
  import opened Numbers
  import opened Ecs
  import opened Intents
  import XorShift
  import TickSystems

  // ---- Finding the clicked entity ----

  /** `e` is clickable and stands on (x, y). */
  predicate HitAt(c: Components, e: Entity, x: int, y: int)
  {
    e in c.clickable && e in c.transforms && c.transforms[e] == Transform(x, y)
  }

  /**
   * The entity a click on (x, y) lands on: the earliest monster standing
   * there, else the latest other clickable standing there, else none.
   */
  ghost predicate IsTopClickable(c: Components, x: int, y: int, r: Option<Entity>)
  {
    match r
    case None => forall e :: !HitAt(c, e, x, y)
    case Some(t) =>
      HitAt(c, t, x, y) &&
      if t in c.monster then forall e :: HitAt(c, e, x, y) && e in c.monster ==> t <= e
      else forall e :: HitAt(c, e, x, y) ==> e !in c.monster && e <= t
  }

  /** The rule above picks exactly one answer for every tile. */
  lemma TopClickableUnique(c: Components, x: int, y: int, r1: Option<Entity>, r2: Option<Entity>)
    requires IsTopClickable(c, x, y, r1) && IsTopClickable(c, x, y, r2)
    ensures r1 == r2
  {
    if r1.Some? && r2.Some? {
      var a, b := r1.value, r2.value;
      assert HitAt(c, a, x, y) && HitAt(c, b, x, y);
    }
  }

  /** A monster on the clicked tile always takes the click over any other clickable. */
  lemma MonstersTakeClicksFirst(c: Components, x: int, y: int, r: Option<Entity>, m: Entity)
    requires IsTopClickable(c, x, y, r)
    requires HitAt(c, m, x, y) && m in c.monster
    ensures r.Some? && r.value in c.monster && r.value <= m
  {
  }

  /**
   * `findTopClickable`: walks the entities upwards and stops at the first
   * clickable monster on the tile, remembering the last other clickable seen.
   */
  method FindTopClickable(w: World, x: int, y: int) returns (r: Option<Entity>)
    requires w.Valid()
    ensures IsTopClickable(w.components, x, y, r)
  {
    var c := w.components;
    forall e | HitAt(c, e, x, y)
      ensures e in w.entities && 1 <= e < w.nextEntityId
    {
      assert c.Has(e);
    }
    var other: Option<Entity> := None;
    for id := 1 to w.nextEntityId
      invariant forall e :: 1 <= e < id && HitAt(c, e, x, y) ==> e !in c.monster
      invariant other.None? ==> forall e :: 1 <= e < id ==> !HitAt(c, e, x, y)
      invariant other.Some? ==> HitAt(c, other.value, x, y) && other.value !in c.monster
      invariant other.Some? ==> forall e :: 1 <= e < id && HitAt(c, e, x, y) ==> e <= other.value
    {
      if id in w.entities && HitAt(c, id, x, y) {
        if id in c.monster {
          return Some(id);
        }
        other := Some(id);
      }
    }
    return other;
  }

  // ---- The first dark-energy entry ----

  /** `r` is the least key of `s`, or none when `s` is empty. */
  ghost predicate IsFirstKey(s: set<Entity>, r: Option<Entity>)
  {
    match r
    case None => s == {}
    case Some(k) => k in s && forall j :: j in s ==> k <= j
  }

  /** Every non-empty set of ids has a least one. */
  lemma {:induction false} LeastExists(s: set<Entity>)
    requires s != {}
    ensures exists k :: k in s && forall j :: j in s ==> k <= j
    decreases |s|
  {
    if forall j :: j !in s {
      assert false;
    }
    var x :| x in s;
    if forall j :: j in s ==> x <= j {
      return;
    }
    var y :| y in s && y < x;
    var rest := s - {x};
    assert y in rest;
    LeastExists(rest);
    var k :| k in rest && forall j :: j in rest ==> k <= j;
    assert forall j :: j in s ==> k <= j by {
      forall j | j in s
        ensures k <= j
      {
        if j != x {
          assert j in rest;
        } else {
          assert k <= y;
        }
      }
    }
  }

  /** The key a `Map` iteration visits first. */
  ghost function FirstKey(s: set<Entity>): (r: Option<Entity>)
    ensures IsFirstKey(s, r)
  {
    if s == {} then None
    else
      LeastExists(s);
      var k :| k in s && forall j :: j in s ==> k <= j;
      Some(k)
  }

  /** `getDarkEnergy`: the entity of the first dark-energy entry, if any. */
  method FirstDarkEnergy(w: World) returns (r: Option<Entity>)
    requires w.Valid()
    ensures r == FirstKey(w.components.darkEnergy.Keys)
  {
    var m := w.components.darkEnergy;
    forall e | e in m
      ensures 1 <= e < w.nextEntityId
    {
      assert w.components.Has(e);
    }
    for id := 1 to w.nextEntityId
      invariant forall e :: e in m ==> id <= e
    {
      if id in m {
        FirstKeyUnique(m.Keys, Some(id), FirstKey(m.Keys));
        return Some(id);
      }
    }
    assert m.Keys == {};
    return None;
  }

  /** A set has one least key. */
  lemma FirstKeyUnique(s: set<Entity>, r1: Option<Entity>, r2: Option<Entity>)
    requires IsFirstKey(s, r1) && IsFirstKey(s, r2)
    ensures r1 == r2
  {
    if r1.Some? && r2.Some? {
      assert r1.value <= r2.value && r2.value <= r1.value;
    }
  }

  /** `dark.value += gain` on the first dark-energy entry, if there is one. */
  ghost function FeedDark(c: Components, gain: real): (r: Components)
    ensures r.darkEnergy.Keys == c.darkEnergy.Keys
    ensures r == c.(darkEnergy := r.darkEnergy)
  {
    match FirstKey(c.darkEnergy.Keys)
    case None => c
    case Some(k) => c.(darkEnergy := c.darkEnergy[k := c.darkEnergy[k].(value := c.darkEnergy[k].value + gain)])
  }

  /** Feeding the Dark Lord changes only the first entry's value, by exactly the gain. */
  lemma FeedDarkEffect(c: Components, gain: real, e: Entity)
    requires e in c.darkEnergy
    ensures FirstKey(c.darkEnergy.Keys) == Some(e) ==>
      FeedDark(c, gain).darkEnergy[e] == c.darkEnergy[e].(value := c.darkEnergy[e].value + gain)
    ensures FirstKey(c.darkEnergy.Keys) != Some(e) ==> FeedDark(c, gain).darkEnergy[e] == c.darkEnergy[e]
  {
  }

  // ---- Damage, floating numbers and defeat ----

  /** `computeClickDamage`: one draw of the generator decides a critical hit. */
  method ComputeClickDamage(w: World) returns (damage: int, crit: bool)
    modifies w.rng
    ensures w.rng.state == XorShift.Step(old(w.rng.state))
    ensures crit <==> XorShift.Unit(w.rng.state) < w.balance.critChance
    ensures damage == if crit then w.balance.critDamageRounded else w.balance.clickDamageRounded
  {
    var u := w.rng.Next();
    crit := u < w.balance.critChance;
    damage := if crit then w.balance.critDamageRounded else w.balance.clickDamageRounded;
  }

  /** `pushFloatingNumber`: the number goes to the back of the list with the configured lifetime. */
  method PushFloatingNumber(w: World, tileX: int, tileY: int, value: int, crit: bool)
    modifies w`floatingNumbers
    ensures w.floatingNumbers == old(w.floatingNumbers) + [FloatingNumber(tileX, tileY, value, w.balance.floatingLifeTicks, crit)]
  {
    w.floatingNumbers := w.floatingNumbers + [FloatingNumber(tileX, tileY, value, w.balance.floatingLifeTicks, crit)];
  }

  /** `onEntityDefeated`: a monster pays out its bounty; then the entity is removed. */
  method OnEntityDefeated(w: World, entity: Entity)
    requires w.Valid()
    modifies w`economy, w`entities, w`components
    ensures w.Valid()
    ensures w.economy == if entity in old(w.components.monster)
      then old(w.economy).(gold := old(w.economy.gold) + w.balance.goldPerKill)
      else old(w.economy)
    ensures w.entities == old(w.entities) - {entity}
    ensures w.components == Purge(old(w.components), entity)
  {
    if entity in w.components.monster {
      w.economy := w.economy.(gold := w.economy.gold + w.balance.goldPerKill);
    }
    w.RemoveEntity(entity);
  }

  // ---- One click ----

  /**
   * The store after a kill of `t`: the entity is gone, every doom clock
   * gains the kill bonus and the first dark-energy entry gains the kill gain.
   */
  ghost function Slain(c: Components, t: Entity, b: Balance): Components
  {
    FeedDark(TickSystems.DoomShifted(Purge(c, t), b.onMonsterKillSeconds), b.perMonsterKillGain)
  }

  /** A slain entity has no component left, the others keep their hp, and no doom clock turns negative. */
  lemma SlainEffect(c: Components, t: Entity, b: Balance)
    ensures !Slain(c, t, b).Has(t)
    ensures Slain(c, t, b).health == c.health - {t}
    ensures (forall e :: e in c.doomClock ==> 0.0 <= c.doomClock[e]) ==>
      forall e :: e in Slain(c, t, b).doomClock ==> 0.0 <= Slain(c, t, b).doomClock[e]
  {
    var purged := Purge(c, t);
    var shifted := TickSystems.DoomShifted(purged, b.onMonsterKillSeconds);
    var fed := FeedDark(shifted, b.perMonsterKillGain);
    PurgeClears(c, t, {});
    assert fed == shifted.(darkEnergy := fed.darkEnergy);
  }

  /**
   * The store after a hit of `damage` on `t`: the hp drops and stops at 0,
   * and a target left at 0 is slain.
   */
  ghost function Struck(c: Components, t: Entity, damage: int, b: Balance): Components
    requires t in c.health
  {
    var hp := Max0(c.health[t].hp - damage);
    if hp <= 0 then Slain(c, t, b)
    else c.(health := c.health[t := c.health[t].(hp := hp)])
  }

  /** The per-action drain, applied only when it is positive. */
  function Drained(c: Components, b: Balance): Components
  {
    if b.drainPerActionSeconds > 0.0 then TickSystems.DoomShifted(c, -b.drainPerActionSeconds) else c
  }

  /** What became of one click. */
  datatype ClickOutcome =
    | NoTarget
    | NoHealth(target: Entity)
    | Hit(target: Entity, damage: int, crit: bool, killed: bool, wasMonster: bool)

  /**
   * A hit lowers the target's hp to `max(0, hp - damage)` and touches no
   * other entity's hp; a target left at 0 hp has no component left.
   */
  lemma StruckEffect(c: Components, t: Entity, damage: int, b: Balance)
    requires t in c.health
    ensures Max0(c.health[t].hp - damage) > 0 ==>
      t in Struck(c, t, damage, b).health &&
      Struck(c, t, damage, b).health[t] == c.health[t].(hp := Max0(c.health[t].hp - damage))
    ensures Max0(c.health[t].hp - damage) <= 0 ==> !Struck(c, t, damage, b).Has(t)
    ensures forall x :: x != t ==> Agree(Struck(c, t, damage, b).health, c.health, x)
  {
    SlainEffect(c, t, b);
  }

  /** A hit leaves every doom clock that was not negative still not negative, after the drain too. */
  lemma StruckKeepsDoomNonNegative(c: Components, t: Entity, damage: int, b: Balance)
    requires t in c.health
    requires forall e :: e in c.doomClock ==> 0.0 <= c.doomClock[e]
    ensures forall e :: e in Drained(Struck(c, t, damage, b), b).doomClock ==> 0.0 <= Drained(Struck(c, t, damage, b), b).doomClock[e]
  {
    SlainEffect(c, t, b);
    DrainedKeepsDoomNonNegative(Struck(c, t, damage, b), b);
  }

  /** The drain alone keeps doom clocks from going negative. */
  lemma DrainedKeepsDoomNonNegative(c: Components, b: Balance)
    requires forall e :: e in c.doomClock ==> 0.0 <= c.doomClock[e]
    ensures forall e :: e in Drained(c, b).doomClock ==> 0.0 <= Drained(c, b).doomClock[e]
  {
  }

  /** Changing an entry the store already has keeps it within the same entities. */
  lemma HealthUpdateWithin(c: Components, t: Entity, h: Health, s: set<Entity>)
    requires t in c.health && c.Within(s)
    ensures c.(health := c.health[t := h]).Within(s)
  {
    var d := c.(health := c.health[t := h]);
    forall x | d.Has(x)
      ensures x in s
    {
      assert c.Has(x);
    }
  }

  /** As above, for the dark-energy table. */
  lemma DarkUpdateWithin(c: Components, k: Entity, v: DarkEnergy, s: set<Entity>)
    requires k in c.darkEnergy && c.Within(s)
    ensures c.(darkEnergy := c.darkEnergy[k := v]).Within(s)
  {
    var d := c.(darkEnergy := c.darkEnergy[k := v]);
    forall x | d.Has(x)
      ensures x in s
    {
      assert c.Has(x);
    }
  }

  /** The hp update of a surviving target. */
  method Wound(w: World, t: Entity, hp: int)
    requires w.Valid() && t in w.components.health
    modifies w`components
    ensures w.Valid()
    ensures w.components == old(w.components).(health := old(w.components.health)[t := old(w.components.health)[t].(hp := hp)])
  {
    var c := w.components;
    HealthUpdateWithin(c, t, c.health[t].(hp := hp), w.entities);
    w.components := c.(health := c.health[t := c.health[t].(hp := hp)]);
  }

  /** The kill branch: defeat, kill bonus on the doom clocks, kill gain for the Dark Lord. */
  method Kill(w: World, t: Entity)
    requires w.Valid()
    modifies w`economy, w`entities, w`components
    ensures w.Valid()
    ensures w.economy == if t in old(w.components.monster)
      then old(w.economy).(gold := old(w.economy.gold) + w.balance.goldPerKill)
      else old(w.economy)
    ensures w.entities == old(w.entities) - {t}
    ensures w.components == Slain(old(w.components), t, w.balance)
  {
    OnEntityDefeated(w, t);
    TickSystems.AdjustDoomClock(w, w.balance.onMonsterKillSeconds);
    var dark := FirstDarkEnergy(w);
    var c := w.components;
    if dark.Some? {
      var k := dark.value;
      var v := c.darkEnergy[k].(value := c.darkEnergy[k].value + w.balance.perMonsterKillGain);
      DarkUpdateWithin(c, k, v, w.entities);
      w.components := c.(darkEnergy := c.darkEnergy[k := v]);
    }
  }

  /** The drain a click pays whether or not it hits. */
  method DrainForAction(w: World)
    requires w.Valid()
    modifies w`components
    ensures w.Valid()
    ensures w.components == Drained(old(w.components), w.balance)
  {
    if w.balance.drainPerActionSeconds > 0.0 {
      TickSystems.AdjustDoomClock(w, -w.balance.drainPerActionSeconds);
    }
  }

  /** The part of the world a click can change. */
  datatype ClickState = ClickState(
    components: Components,
    entities: set<Entity>,
    economy: Economy,
    floatingNumbers: seq<FloatingNumber>,
    rng: bv32)

  function Snapshot(w: World): ClickState
    reads w, w.rng
  {
    ClickState(w.components, w.entities, w.economy, w.floatingNumbers, w.rng.state)
  }

  /**
   * What one click does to the world, from `s` to `t`, with outcome `o`:
   * the target is the top clickable entity on the tile; a miss or a target
   * without health only pays the drain; a hit draws one number, picks the
   * crit or the normal damage, wounds or kills, pays the bounty for a
   * monster, shows a floating number when enabled and pays the drain.
   */
  ghost predicate ClickStep(b: Balance, s: ClickState, click: ClickIntent, o: ClickOutcome, t: ClickState)
  {
    (o.NoTarget? ==> IsTopClickable(s.components, click.tileX, click.tileY, None)) &&
    (!o.NoTarget? ==> IsTopClickable(s.components, click.tileX, click.tileY, Some(o.target))) &&
    (o.NoHealth? <==> (!o.NoTarget? && o.target !in s.components.health)) &&
    (!o.Hit? ==>
      t.components == Drained(s.components, b) && t.entities == s.entities &&
      t.economy == s.economy && t.floatingNumbers == s.floatingNumbers && t.rng == s.rng) &&
    (o.Hit? ==>
      o.target in s.components.health &&
      t.rng == XorShift.Step(s.rng) &&
      (o.crit <==> XorShift.Unit(t.rng) < b.critChance) &&
      o.damage == (if o.crit then b.critDamageRounded else b.clickDamageRounded) &&
      o.killed == (s.components.health[o.target].hp - o.damage <= 0) &&
      o.wasMonster == (o.target in s.components.monster) &&
      t.components == Drained(Struck(s.components, o.target, o.damage, b), b) &&
      t.entities == (if o.killed then s.entities - {o.target} else s.entities) &&
      t.economy == (if o.killed && o.wasMonster
        then s.economy.(gold := s.economy.gold + b.goldPerKill)
        else s.economy) &&
      t.floatingNumbers == s.floatingNumbers +
        (if b.floatingNumbers then [FloatingNumber(click.tileX, click.tileY, o.damage, b.floatingLifeTicks, o.crit)] else []))
  }

  /**
   * One iteration of `combatResolutionSystem`: a click on an empty tile or
   * on a target without health only pays the drain; a hit draws damage,
   * may show a floating number, may kill, and pays the drain.
   */
  method ResolveClick(w: World, click: ClickIntent) returns (outcome: ClickOutcome)
    requires w.Valid()
    modifies w`components, w`entities, w`economy, w`floatingNumbers, w.rng
    ensures w.Valid() && w.nextEntityId == old(w.nextEntityId)
    ensures ClickStep(w.balance, old(Snapshot(w)), click, outcome, Snapshot(w))
  {
    var target := FindTopClickable(w, click.tileX, click.tileY);
    if target.None? {
      DrainForAction(w);
      return NoTarget;
    }
    var t := target.value;
    if t !in w.components.health {
      DrainForAction(w);
      return NoHealth(t);
    }
    outcome := Strike(w, t, click);
  }

  /** The hit branch of a click on `t`, which has health. */
  method Strike(w: World, t: Entity, click: ClickIntent) returns (outcome: ClickOutcome)
    requires w.Valid() && t in w.components.health
    modifies w`components, w`entities, w`economy, w`floatingNumbers, w.rng
    ensures w.Valid() && w.nextEntityId == old(w.nextEntityId)
    ensures outcome.Hit? && outcome.target == t
    ensures w.rng.state == XorShift.Step(old(w.rng.state))
    ensures outcome.crit <==> XorShift.Unit(w.rng.state) < w.balance.critChance
    ensures outcome.damage == (if outcome.crit then w.balance.critDamageRounded else w.balance.clickDamageRounded)
    ensures outcome.killed == (old(w.components.health)[t].hp - outcome.damage <= 0)
    ensures outcome.wasMonster == (t in old(w.components.monster))
    ensures w.components == Drained(Struck(old(w.components), t, outcome.damage, w.balance), w.balance)
    ensures w.entities == (if outcome.killed then old(w.entities) - {t} else old(w.entities))
    ensures w.economy == (if outcome.killed && outcome.wasMonster
        then old(w.economy).(gold := old(w.economy.gold) + w.balance.goldPerKill)
        else old(w.economy))
    ensures w.floatingNumbers == old(w.floatingNumbers) +
        (if w.balance.floatingNumbers then [FloatingNumber(click.tileX, click.tileY, outcome.damage, w.balance.floatingLifeTicks, outcome.crit)] else [])
  {
    ghost var c0 := w.components;
    var damage, crit := ComputeClickDamage(w);
    var hp := Max0(w.components.health[t].hp - damage);
    if w.balance.floatingNumbers {
      PushFloatingNumber(w, click.tileX, click.tileY, damage, crit);
    }
    var killed := hp <= 0;
    var wasMonster := t in w.components.monster;
    if killed {
      Kill(w, t);
    } else {
      Wound(w, t, hp);
    }
    assert w.components == Struck(c0, t, damage, w.balance);
    DrainForAction(w);
    outcome := Hit(t, damage, crit, killed, wasMonster);
  }

  // ---- The system ----

  /** How many outcomes killed a monster. */
  function MonsterKills(outcomes: seq<ClickOutcome>): (n: nat)
    ensures n <= |outcomes|
  {
    if outcomes == [] then 0
    else
      var o := outcomes[|outcomes| - 1];
      MonsterKills(outcomes[..|outcomes| - 1]) + (if o.Hit? && o.killed && o.wasMonster then 1 else 0)
  }

  /** Counting kills, and the bounty `a` they pay, one outcome at a time. */
  lemma MonsterKillsAppend(s: seq<ClickOutcome>, o: ClickOutcome, a: int)
    ensures MonsterKills(s + [o]) == MonsterKills(s) + (if o.Hit? && o.killed && o.wasMonster then 1 else 0)
    ensures a * MonsterKills(s + [o]) == a * MonsterKills(s) + (if o.Hit? && o.killed && o.wasMonster then a else 0)
  {
    assert (s + [o])[..|s|] == s;
  }

  /** No doom clock is below zero. */
  ghost predicate DoomNonNegative(c: Components)
  {
    forall e :: e in c.doomClock ==> 0.0 <= c.doomClock[e]
  }

  /** `trace` is the run of `clicks`: each click takes one entry to the next with its outcome. */
  ghost predicate ClickChain(b: Balance, trace: seq<ClickState>, clicks: seq<ClickIntent>, outcomes: seq<ClickOutcome>)
  {
    |clicks| == |outcomes| && |trace| == |outcomes| + 1 &&
    forall i :: 0 <= i < |outcomes| ==> ClickStep(b, trace[i], clicks[i], outcomes[i], trace[i + 1])
  }

  /**
   * What a run of clicks adds up to: entities only go away, gold rises by
   * the bounty once per monster killed, the shards are untouched, every
   * killed target is gone at the end, and doom clocks that were not
   * negative stay so.
   */
  lemma {:induction false} ClickChainSummary(b: Balance, trace: seq<ClickState>, clicks: seq<ClickIntent>, outcomes: seq<ClickOutcome>)
    requires ClickChain(b, trace, clicks, outcomes)
    ensures trace[|outcomes|].entities <= trace[0].entities
    ensures trace[|outcomes|].economy.gold == trace[0].economy.gold + b.goldPerKill * MonsterKills(outcomes)
    ensures trace[|outcomes|].economy.shards == trace[0].economy.shards
    ensures forall i :: 0 <= i < |outcomes| && outcomes[i].Hit? && outcomes[i].killed ==>
      outcomes[i].target !in trace[|outcomes|].entities
    ensures DoomNonNegative(trace[0].components) ==> DoomNonNegative(trace[|outcomes|].components)
    decreases |outcomes|
  {
    if outcomes != [] {
      var n := |outcomes| - 1;
      var o := outcomes[n];
      assert ClickChain(b, trace[..n + 1], clicks[..n], outcomes[..n]) by {
        forall i | 0 <= i < n
          ensures ClickStep(b, trace[..n + 1][i], clicks[..n][i], outcomes[..n][i], trace[..n + 1][i + 1])
        {
          assert ClickStep(b, trace[i], clicks[i], outcomes[i], trace[i + 1]);
        }
      }
      ClickChainSummary(b, trace[..n + 1], clicks[..n], outcomes[..n]);
      assert outcomes[..n] + [o] == outcomes;
      MonsterKillsAppend(outcomes[..n], o, b.goldPerKill);
      assert ClickStep(b, trace[n], clicks[n], o, trace[n + 1]);
      if DoomNonNegative(trace[0].components) {
        if o.Hit? {
          StruckKeepsDoomNonNegative(trace[n].components, o.target, o.damage, b);
        } else {
          DrainedKeepsDoomNonNegative(trace[n].components, b);
        }
      }
    }
  }

  /**
   * `combatResolutionSystem`: every click of the tick, in order. The ghost
   * `trace` holds the world before each click and after the last one, and
   * each click takes the world from one entry to the next as `ClickStep`
   * says; `ClickChainSummary` adds the run up.
   */
  method CombatResolutionSystem(w: World) returns (outcomes: seq<ClickOutcome>, ghost trace: seq<ClickState>)
    requires w.Valid()
    modifies w`components, w`entities, w`economy, w`floatingNumbers, w.rng
    ensures w.Valid() && w.nextEntityId == old(w.nextEntityId)
    ensures ClickChain(w.balance, trace, w.currentIntents.clicks, outcomes)
    ensures trace[0] == old(Snapshot(w)) && trace[|outcomes|] == Snapshot(w)
    ensures w.entities <= old(w.entities)
    ensures w.economy.gold == old(w.economy.gold) + w.balance.goldPerKill * MonsterKills(outcomes)
    ensures w.economy.shards == old(w.economy.shards)
    ensures forall i :: 0 <= i < |outcomes| && outcomes[i].Hit? && outcomes[i].killed ==> outcomes[i].target !in w.entities
    ensures DoomNonNegative(old(w.components)) ==> DoomNonNegative(w.components)
  {
    var clicks := w.currentIntents.clicks;
    outcomes := [];
    trace := [Snapshot(w)];
    for i := 0 to |clicks|
      invariant w.Valid() && w.nextEntityId == old(w.nextEntityId)
      invariant w.currentIntents == old(w.currentIntents)
      invariant ClickChain(w.balance, trace, clicks[..i], outcomes)
      invariant trace[0] == old(Snapshot(w)) && trace[i] == Snapshot(w)
    {
      var outcome := ResolveClick(w, clicks[i]);
      assert clicks[..i + 1] == clicks[..i] + [clicks[i]];
      outcomes := outcomes + [outcome];
      trace := trace + [Snapshot(w)];
    }
    assert clicks[..|clicks|] == clicks;
    ClickChainSummary(w.balance, trace, clicks, outcomes);
  }
}
