/**
 * The world and entity store of src/ecs/world.ts.
 *
 * Entities are positive integers handed out by a counter that only goes
 * up. Each kind of component lives in its own table keyed by entity (the
 * `ComponentStores` record of src/ecs/components.ts); JavaScript `Map`s
 * become Dafny maps and `Set`s become sets. A component object that the
 * source edits in place is a value here, and an edit replaces the table
 * entry.
 *
 * The world also carries the fields that the tick systems of
 * src/logic/systems.ts read and write beyond the `World` type of
 * world.ts: the village table, the event log of the current tick, the
 * run state and the run statistics.
 */
module Ecs {
  import opened Wrappers
  import opened Numbers
  import opened Grid
  import XorShift
  import Intents
  import Villages

  type Entity = int

  datatype MonsterKind = Imp | Brute | Wisp

  function KindName(kind: MonsterKind): string
  {
    match kind
    case Imp => "imp"
    case Brute => "brute"
    case Wisp => "wisp"
  }

  // ---- Components (src/ecs/components.ts) ----

  datatype Transform = Transform(tileX: int, tileY: int)
  datatype Health = Health(hp: int, max: int)
  datatype MonsterState = MonsterState(moveCooldown: int, attackCooldown: int)
  datatype HeroState = HeroState(moveCooldown: int)
  datatype Town = Town(integrity: int, rallied: Option<bool>)
  datatype RallyAura = RallyAura(radius: int, bonus: real, durationTicks: int, remainingTicks: int, cooldownTicks: int)
  datatype CleanseChannel = CleanseChannel(tLeftTicks: int, totalTicks: int, cooldownTicks: int, targetTileX: int, targetTileY: int)
  datatype Cooldowns = Cooldowns(corruptTile: int, spawnWave: int, drainClock: int)
  datatype DarkEnergy = DarkEnergy(value: real, cadenceTicks: int, cadenceCounter: int, cooldowns: Cooldowns)
  datatype SpawnPoint = SpawnPoint(rate: real, timer: real)
  datatype Loot = Loot(kind: string, amount: real)

  /** The sixteen component tables. */
  datatype Components = Components(
    transforms: map<Entity, Transform>,
    renderIso: map<Entity, string>,
    health: map<Entity, Health>,
    clickable: set<Entity>,
    monster: map<Entity, MonsterKind>,
    monsterState: map<Entity, MonsterState>,
    hero: set<Entity>,
    heroState: map<Entity, HeroState>,
    town: map<Entity, Town>,
    corruption: map<Entity, real>,
    rallyAura: map<Entity, RallyAura>,
    cleanse: map<Entity, CleanseChannel>,
    doomClock: map<Entity, real>,
    darkEnergy: map<Entity, DarkEnergy>,
    spawnPoint: map<Entity, SpawnPoint>,
    loot: map<Entity, Loot>)
  {
    /** The entity has at least one component. */
    predicate Has(e: Entity)
    {
      e in transforms || e in renderIso || e in health || e in clickable || e in monster || e in monsterState ||
      e in hero || e in heroState || e in town || e in corruption || e in rallyAura || e in cleanse ||
      e in doomClock || e in darkEnergy || e in spawnPoint || e in loot
    }

    /** Every entity with a component is in `s`. */
    ghost predicate Within(s: set<Entity>)
    {
      forall x :: Has(x) ==> x in s
    }
  }

  /** `createComponentStores`: sixteen empty tables. */
  const EmptyComponents: Components :=
    Components(map[], map[], map[], {}, map[], map[], {}, map[], map[], map[], map[], map[], map[], map[], map[], map[])

  /** `x` has the same entry, or none, in both tables. */
  predicate Agree<V(==)>(m: map<Entity, V>, n: map<Entity, V>, x: Entity)
  {
    (x in m <==> x in n) && (x in m ==> m[x] == n[x])
  }

  /** `x` has the same components in both stores. */
  predicate Same(c: Components, d: Components, x: Entity)
  {
    Agree(c.transforms, d.transforms, x) && Agree(c.renderIso, d.renderIso, x) && Agree(c.health, d.health, x) &&
    (x in c.clickable <==> x in d.clickable) && Agree(c.monster, d.monster, x) && Agree(c.monsterState, d.monsterState, x) &&
    (x in c.hero <==> x in d.hero) && Agree(c.heroState, d.heroState, x) && Agree(c.town, d.town, x) &&
    Agree(c.corruption, d.corruption, x) && Agree(c.rallyAura, d.rallyAura, x) && Agree(c.cleanse, d.cleanse, x) &&
    Agree(c.doomClock, d.doomClock, x) && Agree(c.darkEnergy, d.darkEnergy, x) && Agree(c.spawnPoint, d.spawnPoint, x) &&
    Agree(c.loot, d.loot, x)
  }

  lemma SameTransitive(c: Components, d: Components, e: Components, x: Entity)
    requires Same(c, d, x) && Same(d, e, x)
    ensures Same(c, e, x)
  {
  }

  /** The sixteen deletions of `removeEntity`. */
  function Purge(c: Components, e: Entity): Components
  {
    Components(c.transforms - {e}, c.renderIso - {e}, c.health - {e}, c.clickable - {e},
               c.monster - {e}, c.monsterState - {e}, c.hero - {e}, c.heroState - {e},
               c.town - {e}, c.corruption - {e}, c.rallyAura - {e}, c.cleanse - {e},
               c.doomClock - {e}, c.darkEnergy - {e}, c.spawnPoint - {e}, c.loot - {e})
  }

  /**
   * Purging leaves the entity without any component and keeps the store
   * within the remaining entities.
   */
  lemma PurgeClears(c: Components, e: Entity, s: set<Entity>)
    ensures !Purge(c, e).Has(e)
    ensures c.Within(s) ==> Purge(c, e).Within(s - {e})
  {
  }

  /** Purging one entity leaves every other entity's components as they were. */
  lemma PurgeKeepsOthers(c: Components, e: Entity, x: Entity)
    requires x != e
    ensures Same(Purge(c, e), c, x)
  {
  }

  /** The ids `lo`, ..., `hi - 1`, which the counter hands out when it moves from `lo` to `hi`. */
  function IdRange(lo: int, hi: int): (r: set<Entity>)
    ensures forall e :: e in r <==> lo <= e < hi
    decreases hi - lo
  {
    if hi <= lo then {} else IdRange(lo, hi - 1) + {hi - 1}
  }

  // ---- Balance (src/logic/balance.ts), the read-only model parameters ----

  datatype KindStats = KindStats(hp: int, moveCooldownTicks: int)
  datatype TileSpot = TileSpot(tileX: int, tileY: int)
  datatype MonsterSpawn = MonsterSpawn(tileX: int, tileY: int, kind: MonsterKind)
  datatype ActionConfig = ActionConfig(cost: real, cooldownSeconds: real, cooldownTicksRounded: int)

  /**
   * The balance values the modelled code reads. A value the source derives
   * with `Math.round` from seconds and the tick rate is given here already
   * rounded (the fields ending in `Ticks` or `Rounded`).
   */
  datatype Balance = Balance(
    ticksPerSecond: int,
    gridWidth: int,
    gridHeight: int,
    townSpawn: TileSpot,
    heroSpawn: TileSpot,
    monsterSpawns: seq<MonsterSpawn>,
    rngSeed: int,
    doomStartSeconds: real,
    baseDrainPerSecond: real,
    onMonsterKillSeconds: real,
    drainPerActionSeconds: real,
    townDamagePenaltySeconds: real,
    corruptTilePenaltySeconds: real,
    spawnWavePenaltySeconds: real,
    floatingNumbers: bool,
    floatingLifeTicks: int,
    critChance: real,
    clickDamageRounded: int,
    critDamageRounded: int,
    heroHp: int,
    heroMoveCooldownTicks: int,
    townIntegrityMax: int,
    corruptProgressPerTick: real,
    cleanseReductionPerTick: real,
    darkCadenceTicksRounded: int,
    baseGainPerSecond: real,
    perCorruptedTileGain: real,
    perMonsterKillGain: real,
    corruptTileAction: ActionConfig,
    spawnWaveAction: ActionConfig,
    waveSize: int,
    waveKind: MonsterKind,
    waveEdgePadding: int,
    corruptionTileMax: real,
    tileIncreasePerTick: real,
    monsterAttackDamage: int,
    monsterAttackCooldownTicks: int,
    imp: KindStats,
    brute: KindStats,
    wisp: KindStats,
    goldPerKill: int,
    surviveGoalSecondsRounded: int,
    resourceGoal: real)
  {
    function Kind(kind: MonsterKind): KindStats
    {
      match kind
      case Imp => imp
      case Brute => brute
      case Wisp => wisp
    }

    /** The tick rate is positive, so `tick / ticksPerSecond` is defined. */
    predicate WellFormed()
    {
      0 < ticksPerSecond
    }
  }

  // ---- Spawned entities ----

  /** `spawnMonster`'s components for a fresh entity. */
  function WithMonster(c: Components, e: Entity, tileX: int, tileY: int, kind: MonsterKind, b: Balance): Components
  {
    c.(transforms := c.transforms[e := Transform(tileX, tileY)],
       renderIso := c.renderIso[e := "monster-" + KindName(kind)],
       health := c.health[e := Health(b.Kind(kind).hp, b.Kind(kind).hp)],
       monster := c.monster[e := kind],
       monsterState := c.monsterState[e := MonsterState(b.Kind(kind).moveCooldownTicks, b.monsterAttackCooldownTicks)],
       clickable := c.clickable + {e})
  }

  /**
   * `e` is a monster of the kind at the tile, at full health for its kind,
   * with its sprite, its cooldowns and a click target.
   */
  predicate IsMonster(c: Components, e: Entity, tileX: int, tileY: int, kind: MonsterKind, b: Balance)
  {
    e in c.transforms && c.transforms[e] == Transform(tileX, tileY) &&
    e in c.renderIso && c.renderIso[e] == "monster-" + KindName(kind) &&
    e in c.health && c.health[e].hp == c.health[e].max == b.Kind(kind).hp &&
    e in c.monster && c.monster[e] == kind &&
    e in c.monsterState && c.monsterState[e] == MonsterState(b.Kind(kind).moveCooldownTicks, b.monsterAttackCooldownTicks) &&
    e in c.clickable
  }

  lemma SameKeepsMonster(c: Components, d: Components, e: Entity, tileX: int, tileY: int, kind: MonsterKind, b: Balance)
    requires Same(c, d, e) && IsMonster(d, e, tileX, tileY, kind, b)
    ensures IsMonster(c, e, tileX, tileY, kind, b)
  {
  }

  lemma WithMonsterKeepsOther(c: Components, e: Entity, tileX: int, tileY: int, kind: MonsterKind, b: Balance, x: Entity)
    requires x != e
    ensures Same(WithMonster(c, e, tileX, tileY, kind, b), c, x)
  {
  }

  /** Spawning a monster makes `e` that monster and changes no other entity. */
  lemma WithMonsterEffect(c: Components, e: Entity, tileX: int, tileY: int, kind: MonsterKind, b: Balance, s: set<Entity>)
    ensures IsMonster(WithMonster(c, e, tileX, tileY, kind, b), e, tileX, tileY, kind, b)
    ensures forall x :: x != e ==> Same(WithMonster(c, e, tileX, tileY, kind, b), c, x)
    ensures c.Within(s) && e in s ==> WithMonster(c, e, tileX, tileY, kind, b).Within(s)
  {
    WithMonsterKeepsOthers(c, e, tileX, tileY, kind, b);
    if c.Within(s) && e in s {
      WithMonsterWithin(c, e, tileX, tileY, kind, b, s);
    }
  }

  lemma WithMonsterKeepsOthers(c: Components, e: Entity, tileX: int, tileY: int, kind: MonsterKind, b: Balance)
    ensures forall x :: x != e ==> Same(WithMonster(c, e, tileX, tileY, kind, b), c, x)
  {
  }

  lemma WithMonsterWithin(c: Components, e: Entity, tileX: int, tileY: int, kind: MonsterKind, b: Balance, s: set<Entity>)
    requires c.Within(s) && e in s
    ensures WithMonster(c, e, tileX, tileY, kind, b).Within(s)
  {
    var d := WithMonster(c, e, tileX, tileY, kind, b);
    forall x | d.Has(x)
      ensures x in s
    {
      if x != e {
        assert c.Has(x);
      }
    }
  }

  /** The town entity's components: position, sprite, full integrity, clickable. */
  function WithTown(c: Components, e: Entity, b: Balance): Components
  {
    c.(transforms := c.transforms[e := Transform(b.townSpawn.tileX, b.townSpawn.tileY)],
       renderIso := c.renderIso[e := "town"],
       town := c.town[e := Town.Town(b.townIntegrityMax, None)],
       clickable := c.clickable + {e})
  }

  /** `e` is a town at its spawn tile with full integrity and a click target. */
  predicate IsTown(c: Components, e: Entity, b: Balance)
  {
    e in c.transforms && c.transforms[e] == Transform(b.townSpawn.tileX, b.townSpawn.tileY) &&
    e in c.renderIso && c.renderIso[e] == "town" &&
    e in c.town && c.town[e].integrity == b.townIntegrityMax &&
    e in c.clickable && e !in c.monster
  }

  /** The hero entity's components: position, sprite, full health, hero tag and state, clickable. */
  function WithHero(c: Components, e: Entity, b: Balance): Components
  {
    c.(transforms := c.transforms[e := Transform(b.heroSpawn.tileX, b.heroSpawn.tileY)],
       renderIso := c.renderIso[e := "hero"],
       health := c.health[e := Health(b.heroHp, b.heroHp)],
       hero := c.hero + {e},
       heroState := c.heroState[e := HeroState(b.heroMoveCooldownTicks)],
       clickable := c.clickable + {e})
  }

  /** `e` is the hero at its spawn tile with full health and a click target. */
  predicate IsHero(c: Components, e: Entity, b: Balance)
  {
    e in c.transforms && c.transforms[e] == Transform(b.heroSpawn.tileX, b.heroSpawn.tileY) &&
    e in c.renderIso && c.renderIso[e] == "hero" &&
    e in c.health && c.health[e].hp == c.health[e].max == b.heroHp &&
    e in c.hero && e in c.heroState && c.heroState[e] == HeroState(b.heroMoveCooldownTicks) &&
    e in c.clickable && e !in c.monster
  }

  /** `Math.max(1, rounded cadence)`. */
  function Cadence(b: Balance): (r: int)
    ensures 1 <= r
    ensures b.darkCadenceTicksRounded >= 1 ==> r == b.darkCadenceTicksRounded
  {
    if b.darkCadenceTicksRounded < 1 then 1 else b.darkCadenceTicksRounded
  }

  /** The doom-clock entity: the clock at its start value and an empty dark-energy pool. */
  function WithDoom(c: Components, e: Entity, b: Balance): Components
  {
    c.(doomClock := c.doomClock[e := b.doomStartSeconds],
       darkEnergy := c.darkEnergy[e := DarkEnergy(0.0, Cadence(b), 0, Cooldowns(0, 0, 0))])
  }

  /** `e` carries the doom clock at its start value and a fresh dark-energy pool. */
  predicate IsDoom(c: Components, e: Entity, b: Balance)
  {
    e in c.doomClock && c.doomClock[e] == b.doomStartSeconds &&
    e in c.darkEnergy && c.darkEnergy[e] == DarkEnergy(0.0, Cadence(b), 0, Cooldowns(0, 0, 0))
  }

  /** Placing the town makes `e` the town and changes no other entity. */
  lemma WithTownEffect(c: Components, e: Entity, b: Balance, s: set<Entity>)
    requires e !in c.monster
    ensures IsTown(WithTown(c, e, b), e, b)
    ensures forall x :: x != e ==> Same(WithTown(c, e, b), c, x)
    ensures c.Within(s) && e in s ==> WithTown(c, e, b).Within(s)
  {
  }

  /** Placing the hero makes `e` the hero and changes no other entity. */
  lemma WithHeroEffect(c: Components, e: Entity, b: Balance, s: set<Entity>)
    requires e !in c.monster
    ensures IsHero(WithHero(c, e, b), e, b)
    ensures forall x :: x != e ==> Same(WithHero(c, e, b), c, x)
    ensures c.Within(s) && e in s ==> WithHero(c, e, b).Within(s)
  {
  }

  /** Placing the doom clock gives `e` the clock and the pool and changes no other entity. */
  lemma WithDoomEffect(c: Components, e: Entity, b: Balance, s: set<Entity>)
    ensures IsDoom(WithDoom(c, e, b), e, b)
    ensures forall x :: x != e ==> Same(WithDoom(c, e, b), c, x)
    ensures c.Within(s) && e in s ==> WithDoom(c, e, b).Within(s)
  {
  }

  /** The store after the first `n` spawns are made, in order, for the entities `first`, `first + 1`, .... */
  function SpawnUpTo(c: Components, first: Entity, spawns: seq<MonsterSpawn>, n: nat, b: Balance): Components
    requires n <= |spawns|
    decreases n
  {
    if n == 0 then c
    else WithMonster(SpawnUpTo(c, first, spawns, n - 1, b), first + n - 1, spawns[n - 1].tileX, spawns[n - 1].tileY, spawns[n - 1].kind, b)
  }

  /** One more spawn extends the series by its next monster. */
  lemma SpawnUpToStep(c: Components, first: Entity, spawns: seq<MonsterSpawn>, i: nat, b: Balance)
    requires i < |spawns|
    ensures SpawnUpTo(c, first, spawns, i + 1, b) == WithMonster(SpawnUpTo(c, first, spawns, i, b), first + i, spawns[i].tileX, spawns[i].tileY, spawns[i].kind, b)
  {
  }

  /** The store after all the spawns are made. */
  function SpawnAll(c: Components, first: Entity, spawns: seq<MonsterSpawn>, b: Balance): Components
  {
    SpawnUpTo(c, first, spawns, |spawns|, b)
  }

  /** Entities outside the range spawned so far keep their components. */
  lemma {:induction false} SpawnAllOutside(c: Components, first: Entity, spawns: seq<MonsterSpawn>, n: nat, b: Balance, x: Entity)
    requires n <= |spawns|
    requires !(first <= x < first + n)
    ensures Same(SpawnUpTo(c, first, spawns, n, b), c, x)
    decreases n
  {
    if n != 0 {
      var before := SpawnUpTo(c, first, spawns, n - 1, b);
      SpawnAllOutside(c, first, spawns, n - 1, b, x);
      WithMonsterKeepsOther(before, first + n - 1, spawns[n - 1].tileX, spawns[n - 1].tileY, spawns[n - 1].kind, b, x);
      SameTransitive(SpawnUpTo(c, first, spawns, n, b), before, c, x);
    }
  }

  /** The `k`-th spawn makes entity `first + k` the monster it describes. */
  lemma SpawnAllInside(c: Components, first: Entity, spawns: seq<MonsterSpawn>, n: nat, b: Balance, k: int)
    requires n <= |spawns|
    requires 0 <= k < n
    ensures IsMonster(SpawnUpTo(c, first, spawns, n, b), first + k, spawns[k].tileX, spawns[k].tileY, spawns[k].kind, b)
  {
    SpawnedAt(c, first, spawns, k, b);
    SpawnLaterKeeps(c, first, spawns, k + 1, n, b, first + k);
    SameKeepsMonster(SpawnUpTo(c, first, spawns, n, b), SpawnUpTo(c, first, spawns, k + 1, b), first + k, spawns[k].tileX, spawns[k].tileY, spawns[k].kind, b);
  }

  /** The spawn that made entity `first + k`. */
  lemma SpawnedAt(c: Components, first: Entity, spawns: seq<MonsterSpawn>, k: nat, b: Balance)
    requires k < |spawns|
    ensures IsMonster(SpawnUpTo(c, first, spawns, k + 1, b), first + k, spawns[k].tileX, spawns[k].tileY, spawns[k].kind, b)
  {
  }

  /** Later spawns leave the entities spawned before them alone. */
  lemma {:induction false} SpawnLaterKeeps(c: Components, first: Entity, spawns: seq<MonsterSpawn>, m: nat, n: nat, b: Balance, x: Entity)
    requires m <= n <= |spawns|
    requires x < first + m
    ensures Same(SpawnUpTo(c, first, spawns, n, b), SpawnUpTo(c, first, spawns, m, b), x)
    decreases n - m
  {
    if m < n {
      var before := SpawnUpTo(c, first, spawns, n - 1, b);
      SpawnLaterKeeps(c, first, spawns, m, n - 1, b, x);
      WithMonsterKeepsOther(before, first + n - 1, spawns[n - 1].tileX, spawns[n - 1].tileY, spawns[n - 1].kind, b, x);
      SameTransitive(SpawnUpTo(c, first, spawns, n, b), before, SpawnUpTo(c, first, spawns, m, b), x);
    }
  }

  /** The spawns add components only to entities of the range spawned so far. */
  lemma {:induction false} SpawnAllWithin(c: Components, first: Entity, spawns: seq<MonsterSpawn>, n: nat, b: Balance, s: set<Entity>)
    requires n <= |spawns|
    requires c.Within(s)
    requires forall x :: first <= x < first + n ==> x in s
    ensures SpawnUpTo(c, first, spawns, n, b).Within(s)
    decreases n
  {
    if n != 0 {
      SpawnAllWithin(c, first, spawns, n - 1, b, s);
      WithMonsterWithin(SpawnUpTo(c, first, spawns, n - 1, b), first + n - 1, spawns[n - 1].tileX, spawns[n - 1].tileY, spawns[n - 1].kind, b, s);
    }
  }

  /** The town, hero and doom-clock entities of `spawnInitialEntities`, from id `first` on. */
  function Fixed(c: Components, first: Entity, b: Balance): Components
  {
    WithDoom(WithHero(WithTown(c, first, b), first + 1, b), first + 2, b)
  }

  /** `Fixed` step by step. */
  lemma FixedChain(c0: Components, c1: Components, c2: Components, c3: Components, town: Entity, hero: Entity, doom: Entity, b: Balance)
    requires hero == town + 1 && doom == town + 2
    requires c1 == WithTown(c0, town, b) && c2 == WithHero(c1, hero, b) && c3 == WithDoom(c2, doom, b)
    ensures Fixed(c0, town, b) == c3
  {
  }

  /** The starting entities of `spawnInitialEntities`, placed from id `first` on. */
  function Starting(c: Components, first: Entity, b: Balance): Components
  {
    SpawnAll(Fixed(c, first, b), first + 3, b.monsterSpawns, b)
  }

  /** The components `createWorld` ends with. */
  function InitialComponents(b: Balance): Components
  {
    Starting(EmptyComponents, 1, b)
  }

  /**
   * A new world holds the town as entity 1, the hero as 2, the doom clock
   * as 3 and the configured monsters from 4 on, in order, and nothing else.
   */
  lemma InitialEntities(b: Balance)
    ensures IsTown(InitialComponents(b), 1, b)
    ensures IsHero(InitialComponents(b), 2, b)
    ensures IsDoom(InitialComponents(b), 3, b)
    ensures forall k :: 0 <= k < |b.monsterSpawns| ==>
      IsMonster(InitialComponents(b), 4 + k, b.monsterSpawns[k].tileX, b.monsterSpawns[k].tileY, b.monsterSpawns[k].kind, b)
    ensures forall x :: !(1 <= x < 4 + |b.monsterSpawns|) ==> !InitialComponents(b).Has(x)
  {
    var c1 := WithTown(EmptyComponents, 1, b);
    WithTownEffect(EmptyComponents, 1, b, {});
    var c2 := WithHero(c1, 2, b);
    WithHeroEffect(c1, 2, b, {});
    var c3 := WithDoom(c2, 3, b);
    WithDoomEffect(c2, 3, b, {});
    var spawns := b.monsterSpawns;
    SpawnAllOutside(c3, 4, spawns, |spawns|, b, 1);
    SpawnAllOutside(c3, 4, spawns, |spawns|, b, 2);
    SpawnAllOutside(c3, 4, spawns, |spawns|, b, 3);
    forall k | 0 <= k < |spawns|
      ensures IsMonster(InitialComponents(b), 4 + k, spawns[k].tileX, spawns[k].tileY, spawns[k].kind, b)
    {
      SpawnAllInside(c3, 4, spawns, |spawns|, b, k);
    }
    forall x | !(1 <= x < 4 + |spawns|)
      ensures !InitialComponents(b).Has(x)
    {
      SpawnAllOutside(c3, 4, spawns, |spawns|, b, x);
    }
  }

  // ---- The tile edits of the initial setup ----

  /** The four road offsets around the town, in the source's order. */
  const RoadOffsets: seq<(int, int)> := [(1, 0), (0, 1), (-1, 0), (0, -1)]

  /** The tile after the town is placed and the roads in `offsets` are laid. */
  function Placed(t: Tile, x: int, y: int, town: TileSpot, offsets: seq<(int, int)>): Tile
  {
    if x == town.tileX && y == town.tileY then t.(kind := Grid.Town)
    else if (x - town.tileX, y - town.tileY) in offsets && t.kind == Plain then t.(kind := Road)
    else t
  }

  /** Every tile after the whole setup: town, roads, then the seeded corruption. */
  function SetupTile(t: Tile, x: int, y: int, town: TileSpot): Tile
  {
    var p := Placed(t, x, y, town, RoadOffsets);
    if x == town.tileX - 1 && y == town.tileY - 1 then
      p.(corruption := 0.2, corrupted := true, corruptProgress := 1.0, corrupting := false)
    else p
  }

  function Lift(o: Option<Tile>, x: int, y: int, town: TileSpot, offsets: seq<(int, int)>): Option<Tile>
  {
    if o.None? then None else Some(Placed(o.value, x, y, town, offsets))
  }

  function LiftSetup(o: Option<Tile>, x: int, y: int, town: TileSpot): Option<Tile>
  {
    if o.None? then None else Some(SetupTile(o.value, x, y, town))
  }

  /**
   * The setup changes only the town's tile (to `town`), its plain
   * four-neighbours (to `road`) and its north-west diagonal (seeded with
   * corruption); no other tile, and no tile's type except those.
   */
  lemma SetupTileChanges(t: Tile, x: int, y: int, town: TileSpot)
    ensures x == town.tileX && y == town.tileY ==> SetupTile(t, x, y, town).kind == Grid.Town
    ensures (x - town.tileX, y - town.tileY) in RoadOffsets ==>
      SetupTile(t, x, y, town).kind == (if t.kind == Plain then Road else t.kind)
    ensures !(x == town.tileX && y == town.tileY) && (x - town.tileX, y - town.tileY) !in RoadOffsets ==>
      SetupTile(t, x, y, town).kind == t.kind
    ensures !(x == town.tileX - 1 && y == town.tileY - 1) ==>
      SetupTile(t, x, y, town).(kind := t.kind) == t
  {
  }

  // ---- Run state and events used by the tick systems ----

  datatype RunStatus = Running | Won | Lost
  datatype Completion = Survival | Resource | Extinction

  datatype RunState = RunState(
    status: RunStatus,
    reason: string,
    completedCondition: Option<Completion>,
    finalTimeSeconds: real,
    endTick: int,
    populationEverPositive: bool)

  datatype GameEvent = VillagerKilled | ResourceReturned | MonsterKilled | VillageDamaged | TickCompleted

  datatype Economy = Economy(gold: int, shards: int)

  datatype FloatingNumber = FloatingNumber(tileX: int, tileY: int, value: int, lifeTicks: int, crit: bool)

  class World {
    var nextEntityId: int
    var entities: set<Entity>
    var components: Components
    var grid: GridState
    const intents: Intents.IntentState
    const rng: XorShift.Rng
    var tick: int
    var seconds: real
    const balance: Balance
    var economy: Economy
    var lastSelectedEntity: Option<Entity>
    var floatingNumbers: seq<FloatingNumber>
    var currentIntents: Intents.Payload
    /** The village table the tick systems read (`components.villages` there). */
    var villages: map<Entity, Villages.Village>
    /** The game events emitted during the current tick. */
    var events: seq<GameEvent>
    var runState: RunState
    /** `stats.resourcesGathered`. */
    var resourcesGathered: real

    /**
     * Ids are positive and below the counter, every component belongs to
     * a live entity, the tile array matches the grid's size and the tick
     * rate is positive.
     */
    ghost predicate Valid()
      reads this
    {
      1 <= nextEntityId &&
      (forall e :: e in entities ==> 1 <= e < nextEntityId) &&
      components.Within(entities) &&
      grid.Valid() &&
      balance.WellFormed()
    }

    /**
     * The world object `createWorld` builds before spawning anything: a
     * fresh grid, empty tables, the counter at 1, the clock and the economy
     * at 0, new intent queues and a generator seeded from the balance.
     */
    constructor (b: Balance)
      requires b.WellFormed()
      ensures Valid()
      ensures balance == b && grid.width == b.gridWidth && grid.height == b.gridHeight
      ensures |grid.tiles| == CellCount(b.gridWidth, b.gridHeight) && forall i :: 0 <= i < |grid.tiles| ==> grid.tiles[i] == PlainTile
      ensures nextEntityId == 1 && entities == {} && components == EmptyComponents
      ensures tick == 0 && seconds == 0.0 && economy == Economy(0, 0)
      ensures lastSelectedEntity == None && floatingNumbers == []
      ensures currentIntents == Intents.Payload([], [])
      ensures fresh(intents) && intents.clicks == [] && intents.abilities == [] && !intents.consumedThisTick
      ensures fresh(rng) && rng.state == XorShift.ToUint32(b.rngSeed) as bv32
    {
      var g := CreateGrid(b.gridWidth, b.gridHeight);
      nextEntityId := 1;
      entities := {};
      components := EmptyComponents;
      grid := g;
      intents := new Intents.IntentState();
      rng := new XorShift.Rng(b.rngSeed);
      tick := 0;
      seconds := 0.0;
      balance := b;
      economy := Economy(0, 0);
      lastSelectedEntity := None;
      floatingNumbers := [];
      currentIntents := Intents.Payload([], []);
      villages := map[];
      events := [];
      runState := RunState(Running, "", None, 0.0, 0, false);
      resourcesGathered := 0.0;
    }

    /** `createEntity`: hands out the counter's value, which no live or past entity has. */
    method CreateEntity() returns (entity: Entity)
      requires Valid()
      modifies this`nextEntityId, this`entities
      ensures Valid()
      ensures entity == old(nextEntityId) && nextEntityId == old(nextEntityId) + 1
      ensures entities == old(entities) + {entity}
      ensures entity !in old(entities) && !components.Has(entity)
    {
      entity := nextEntityId;
      nextEntityId := nextEntityId + 1;
      entities := entities + {entity};
    }

    /**
     * `removeEntity`: the entity leaves the entity set and the sixteen
     * tables; every other entity keeps its components. Tables outside the
     * sixteen (such as the village table) are not touched.
     */
    method RemoveEntity(entity: Entity)
      requires Valid()
      modifies this`entities, this`components
      ensures Valid()
      ensures entities == old(entities) - {entity}
      ensures components == Purge(old(components), entity)
      ensures !components.Has(entity)
      ensures forall x :: x != entity ==> Same(components, old(components), x)
    {
      PurgeClears(components, entity, entities);
      forall x | x != entity
        ensures Same(Purge(components, entity), components, x)
      {
        PurgeKeepsOthers(components, entity, x);
      }
      entities := entities - {entity};
      components := Purge(components, entity);
    }

    /** `spawnMonster`: a fresh entity that is a full-health monster of the kind at the tile. */
    method SpawnMonster(tileX: int, tileY: int, kind: MonsterKind) returns (entity: Entity)
      requires Valid()
      modifies this`nextEntityId, this`entities, this`components
      ensures Valid()
      ensures entity == old(nextEntityId) && nextEntityId == old(nextEntityId) + 1
      ensures entities == old(entities) + {entity}
      ensures components == WithMonster(old(components), entity, tileX, tileY, kind, balance)
      ensures IsMonster(components, entity, tileX, tileY, kind, balance)
      ensures forall x :: x != entity ==> Same(components, old(components), x)
    {
      entity := CreateEntity();
      WithMonsterEffect(components, entity, tileX, tileY, kind, balance, entities);
      components := WithMonster(components, entity, tileX, tileY, kind, balance);
    }

    /** Lays the town tile and the roads around it (the first half of `spawnInitialEntities`). */
    method LayTownAndRoads()
      requires Valid()
      modifies this`grid
      ensures Valid()
      ensures grid.width == old(grid.width) && grid.height == old(grid.height)
      ensures forall x, y :: GetTile(grid, x, y) == Lift(GetTile(old(grid), x, y), x, y, balance.townSpawn, RoadOffsets)
    {
      var town := balance.townSpawn;
      ghost var g0 := grid;
      var townTile := GetTile(grid, town.tileX, town.tileY);
      if townTile.Some? {
        SetTileFrame(grid, town.tileX, town.tileY, townTile.value.(kind := Grid.Town));
        grid := SetTile(grid, town.tileX, town.tileY, townTile.value.(kind := Grid.Town));
      }
      var i := 0;
      while i < |RoadOffsets|
        invariant 0 <= i <= |RoadOffsets|
        invariant Valid()
        invariant grid.width == g0.width && grid.height == g0.height
        invariant forall x, y :: GetTile(grid, x, y) == Lift(GetTile(g0, x, y), x, y, town, RoadOffsets[..i])
      {
        var (dx, dy) := RoadOffsets[i];
        LayRoad(g0, town, i, town.tileX + dx, town.tileY + dy);
        i := i + 1;
      }
      assert RoadOffsets[..i] == RoadOffsets;
    }

    /** One road step: a plain tile at an offset becomes a road. */
    method LayRoad(ghost g0: GridState, town: TileSpot, i: int, nx: int, ny: int)
      requires Valid() && 0 <= i < |RoadOffsets|
      requires (nx - town.tileX, ny - town.tileY) == RoadOffsets[i]
      requires g0.Valid() && grid.width == g0.width && grid.height == g0.height
      requires forall x, y :: GetTile(grid, x, y) == Lift(GetTile(g0, x, y), x, y, town, RoadOffsets[..i])
      modifies this`grid
      ensures Valid()
      ensures grid.width == g0.width && grid.height == g0.height
      ensures forall x, y :: GetTile(grid, x, y) == Lift(GetTile(g0, x, y), x, y, town, RoadOffsets[..i + 1])
    {
      assert forall k :: 0 <= k < i ==> RoadOffsets[k] != RoadOffsets[i];
      assert RoadOffsets[..i + 1] == RoadOffsets[..i] + [RoadOffsets[i]];
      var tile := GetTile(grid, nx, ny);
      if tile.Some? && tile.value.kind == Plain {
        SetTileFrame(grid, nx, ny, tile.value.(kind := Road));
        grid := SetTile(grid, nx, ny, tile.value.(kind := Road));
      }
    }

    /** The second half of `spawnInitialEntities`: the town, hero and doom-clock entities, then the monsters. */
    method SpawnStartingEntities()
      requires Valid()
      modifies this`nextEntityId, this`entities, this`components
      ensures Valid()
      ensures nextEntityId == old(nextEntityId) + 3 + |balance.monsterSpawns|
      ensures old(entities) <= entities
      ensures components == Starting(old(components), old(nextEntityId), balance)
    {
      SpawnFixedEntities();
      SpawnMonsters(balance.monsterSpawns);
    }

    /** The town, the hero and the doom clock, created in that order. */
    method SpawnFixedEntities()
      requires Valid()
      modifies this`nextEntityId, this`entities, this`components
      ensures Valid()
      ensures nextEntityId == old(nextEntityId) + 3
      ensures old(entities) <= entities
      ensures components == Fixed(old(components), old(nextEntityId), balance)
    {
      ghost var c0 := components;
      var town := CreateEntity();
      AddTown(town);
      ghost var c1 := components;
      var hero := CreateEntity();
      AddHero(hero);
      ghost var c2 := components;
      var doom := CreateEntity();
      AddDoom(doom);
      FixedChain(c0, c1, c2, components, town, hero, doom, balance);
    }

    /** The loop of `spawnInitialEntities` that spawns the configured monsters in order. */
    method SpawnMonsters(spawns: seq<MonsterSpawn>)
      requires Valid()
      modifies this`nextEntityId, this`entities, this`components
      ensures Valid()
      ensures nextEntityId == old(nextEntityId) + |spawns|
      ensures entities == old(entities) + IdRange(old(nextEntityId), nextEntityId)
      ensures components == SpawnAll(old(components), old(nextEntityId), spawns, balance)
    {
      ghost var c0, e0, first := components, entities, nextEntityId;
      for i := 0 to |spawns|
        invariant Valid()
        invariant nextEntityId == first + i
        invariant forall e :: e in entities <==> e in e0 || first <= e < first + i
        invariant components == SpawnUpTo(c0, first, spawns, i, balance)
      {
        SpawnNext(c0, e0, first, spawns, i);
      }
      assert entities == e0 + IdRange(first, nextEntityId);
    }

    /** The `i`-th spawn of `spawnMonsters`, made after the ones before it. */
    method SpawnNext(ghost c0: Components, ghost e0: set<Entity>, ghost first: Entity, spawns: seq<MonsterSpawn>, i: nat)
      requires Valid() && i < |spawns| && nextEntityId == first + i
      requires forall e :: e in entities <==> e in e0 || first <= e < first + i
      requires components == SpawnUpTo(c0, first, spawns, i, balance)
      modifies this`nextEntityId, this`entities, this`components
      ensures Valid()
      ensures nextEntityId == old(nextEntityId) + 1
      ensures forall e :: e in entities <==> e in e0 || first <= e < first + i + 1
      ensures components == SpawnUpTo(c0, first, spawns, i + 1, balance)
    {
      SpawnUpToStep(c0, first, spawns, i, balance);
      var e := SpawnMonster(spawns[i].tileX, spawns[i].tileY, spawns[i].kind);
    }

    /** The town's components for a just-created entity (`addTransform`, `addRenderIso`, `addTown`, clickable). */
    method AddTown(e: Entity)
      requires Valid() && e in entities && !components.Has(e)
      modifies this`components
      ensures Valid()
      ensures components == WithTown(old(components), e, balance)
    {
      WithTownEffect(components, e, balance, entities);
      components := WithTown(components, e, balance);
    }

    /** The hero's components for a just-created entity. */
    method AddHero(e: Entity)
      requires Valid() && e in entities && !components.Has(e)
      modifies this`components
      ensures Valid()
      ensures components == WithHero(old(components), e, balance)
    {
      WithHeroEffect(components, e, balance, entities);
      components := WithHero(components, e, balance);
    }

    /** The doom clock's components for a just-created entity. */
    method AddDoom(e: Entity)
      requires Valid() && e in entities
      modifies this`components
      ensures Valid()
      ensures components == WithDoom(old(components), e, balance)
    {
      WithDoomEffect(components, e, balance, entities);
      components := WithDoom(components, e, balance);
    }

    /**
     * `spawnInitialEntities`: the town tile, the roads, the starting
     * entities and one seeded corrupted tile north-west of the town.
     */
    method SpawnInitialEntities()
      requires Valid()
      modifies this`nextEntityId, this`entities, this`components, this`grid
      ensures Valid()
      ensures grid.width == old(grid.width) && grid.height == old(grid.height)
      ensures forall x, y :: GetTile(grid, x, y) == LiftSetup(GetTile(old(grid), x, y), x, y, balance.townSpawn)
      ensures nextEntityId == old(nextEntityId) + 3 + |balance.monsterSpawns|
      ensures old(entities) <= entities
      ensures components == Starting(old(components), old(nextEntityId), balance)
    {
      LayTownAndRoads();
      SpawnStartingEntities();
      var town := balance.townSpawn;
      var tile := GetTile(grid, town.tileX - 1, town.tileY - 1);
      if tile.Some? {
        var seeded := tile.value.(corruption := 0.2, corrupted := true, corruptProgress := 1.0, corrupting := false);
        SetTileFrame(grid, town.tileX - 1, town.tileY - 1, seeded);
        grid := SetTile(grid, town.tileX - 1, town.tileY - 1, seeded);
      }
    }
  }

  /**
   * `createWorld`: the new world object, then the initial spawns. The
   * grid is all plain tiles except the town, its roads and the corrupted
   * seed tile; the town is entity 1, the hero 2, the doom clock 3 and the
   * configured monsters follow (see `InitialEntities`).
   */
  method CreateWorld(b: Balance) returns (w: World)
    requires b.WellFormed()
    ensures fresh(w) && w.Valid() && w.balance == b
    ensures w.grid.width == b.gridWidth && w.grid.height == b.gridHeight
    ensures forall x, y ::
      GetTile(w.grid, x, y) == (if 0 <= x < b.gridWidth && 0 <= y < b.gridHeight then Some(SetupTile(PlainTile, x, y, b.townSpawn)) else None)
    ensures w.nextEntityId == 4 + |b.monsterSpawns|
    ensures w.components == InitialComponents(b)
    ensures w.tick == 0 && w.seconds == 0.0 && w.economy == Economy(0, 0)
    ensures w.lastSelectedEntity == None && w.floatingNumbers == []
    ensures fresh(w.intents) && w.intents.clicks == [] && w.intents.abilities == [] && !w.intents.consumedThisTick
    ensures fresh(w.rng) && w.rng.state == XorShift.ToUint32(b.rngSeed) as bv32
  {
    w := new World(b);
    ghost var g := w.grid;
    w.SpawnInitialEntities();
    forall x, y
      ensures GetTile(w.grid, x, y) ==
        (if 0 <= x < b.gridWidth && 0 <= y < b.gridHeight then Some(SetupTile(PlainTile, x, y, b.townSpawn)) else None)
    {
      if g.InBounds(x, y) {
        CreatedGridLookup(g, x, y);
      }
    }
  }

}
