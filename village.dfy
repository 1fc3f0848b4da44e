/**
 * The village economy and villager state records of
 * src/logic/simulation/entities.ts.
 *
 * A village eats from its stockpile every tick, derives a mood from the
 * stockpile, and counts down a spawn timer whose length depends on the
 * mood. When the timer runs out it asks its owner to spawn a villager;
 * that callback may fail. Stockpile amounts are JavaScript numbers,
 * modelled as exact reals; ticks and head counts are integers.
 */
module Villages {
  import opened Wrappers
  import opened Numbers

  datatype Mood = Normal | Boosted | Starving

  /** The clamped, read-only parameters of a village. */
  datatype Config = Config(
    capacity: int,
    baseSpawnIntervalTicks: int,
    spawnRateBoostMultiplier: real,
    boostThreshold: real,
    starvationThreshold: real,
    consumptionPerVillagerPerTick: real,
    spawnCost: real,
    maxStockpile: real)
  {
    /** What the constructor's clamps guarantee. */
    predicate Clamped()
    {
      1 <= baseSpawnIntervalTicks && 1.0 <= spawnRateBoostMultiplier &&
      0.0 <= boostThreshold && 0.0 <= starvationThreshold &&
      0.0 <= consumptionPerVillagerPerTick && 0.0 <= spawnCost && 0.0 <= maxStockpile
    }
  }

  /** `updateMood`: starving at or below the starvation threshold, else boosted at or above the boost threshold. */
  function MoodFor(c: Config, stockpile: real): Mood
  {
    if stockpile <= c.starvationThreshold then Starving
    else if stockpile >= c.boostThreshold then Boosted
    else Normal
  }

  /** The three moods partition the stockpile line exactly as the thresholds say. */
  lemma MoodCases(c: Config, stockpile: real)
    ensures MoodFor(c, stockpile) == Starving <==> stockpile <= c.starvationThreshold
    ensures MoodFor(c, stockpile) == Boosted <==>
      c.starvationThreshold < stockpile && c.boostThreshold <= stockpile
    ensures MoodFor(c, stockpile) == Normal <==>
      c.starvationThreshold < stockpile < c.boostThreshold
  {
  }

  /** `Math.floor(base / multiplier)` for a positive multiplier. */
  function FloorDiv(base: int, multiplier: real): (r: int)
    requires 0 <= base && 1.0 <= multiplier
    ensures 0 <= r <= base
  {
    var q := base as real / multiplier;
    assert q * multiplier == base as real;
    q.Floor
  }

  /**
   * `currentSpawnInterval`: a boosted village with a real boost waits
   * `max(1, floor(base / multiplier))` ticks; otherwise the base interval.
   */
  function Interval(c: Config, mood: Mood): (r: int)
    requires c.Clamped()
    ensures 1 <= r <= c.baseSpawnIntervalTicks
    ensures mood != Boosted || c.spawnRateBoostMultiplier <= 1.0 ==> r == c.baseSpawnIntervalTicks
  {
    if mood == Boosted && c.spawnRateBoostMultiplier > 1.0 then
      var boosted := FloorDiv(c.baseSpawnIntervalTicks, c.spawnRateBoostMultiplier);
      if boosted < 1 then 1 else boosted
    else c.baseSpawnIntervalTicks
  }

  /** `consumeResources`: each villager eats its share, and the stockpile never drops below 0. */
  function Consume(c: Config, population: int, stockpile: real): (r: real)
  {
    if c.consumptionPerVillagerPerTick <= 0.0 || population <= 0 then stockpile
    else MaxReal(0.0, stockpile - population as real * c.consumptionPerVillagerPerTick)
  }

  /** Consumption never leaves a negative stockpile, never adds food, and is a no-op for an empty or non-eating village. */
  lemma ConsumeBounds(c: Config, population: int, stockpile: real)
    requires c.Clamped()
    ensures c.consumptionPerVillagerPerTick <= 0.0 || population <= 0 ==> Consume(c, population, stockpile) == stockpile
    ensures 0 < population && 0.0 < c.consumptionPerVillagerPerTick ==> 0.0 <= Consume(c, population, stockpile)
    ensures Consume(c, population, stockpile) <= MaxReal(0.0, stockpile)
  {
    if c.consumptionPerVillagerPerTick > 0.0 && population > 0 {
      assert population as real * c.consumptionPerVillagerPerTick >= 0.0;
    }
  }

  /** The part of a village a tick changes. */
  datatype VillageState = VillageState(population: int, stockpile: real, spawnTimer: int, mood: Mood)

  /** What a tick did besides changing the state: whether it spawned, and whether it asked to. */
  datatype TickOutcome = TickOutcome(next: VillageState, spawned: bool, calledSpawn: bool)

  /**
   * The effect of `tick` when the spawn callback would return
   * `spawnResult` (None for `null`).
   */
  function TickSpec(c: Config, v: VillageState, spawnResult: Option<int>): TickOutcome
    requires c.Clamped()
  {
    var stock := Consume(c, v.population, v.stockpile);
    var mood := MoodFor(c, stock);
    var interval := Interval(c, mood);
    var timer := if v.spawnTimer > interval then interval else v.spawnTimer;
    if v.population >= c.capacity then TickOutcome(VillageState(v.population, stock, interval, mood), false, false)
    else if mood == Starving then TickOutcome(VillageState(v.population, stock, timer, mood), false, false)
    else if stock < c.spawnCost then TickOutcome(VillageState(v.population, stock, timer, mood), false, false)
    else if timer - 1 > 0 then TickOutcome(VillageState(v.population, stock, timer - 1, mood), false, false)
    else if spawnResult.None? then TickOutcome(VillageState(v.population, stock, interval, mood), false, true)
    else
      var paid := MaxReal(0.0, stock - c.spawnCost);
      TickOutcome(VillageState(v.population, paid, interval, MoodFor(c, paid)), true, true)
  }

  /** A tick neither spawns nor calls the spawner when the village is full, starving or too poor. */
  lemma NoSpawnWhenBlocked(c: Config, v: VillageState, spawnResult: Option<int>)
    requires c.Clamped()
    requires v.population >= c.capacity ||
      MoodFor(c, Consume(c, v.population, v.stockpile)) == Starving ||
      Consume(c, v.population, v.stockpile) < c.spawnCost
    ensures !TickSpec(c, v, spawnResult).spawned && !TickSpec(c, v, spawnResult).calledSpawn
  {
  }

  /**
   * A failed spawn (the callback returned null) restarts the timer at the
   * current interval and keeps the stockpile left after eating.
   */
  lemma FailedSpawnKeepsStockpile(c: Config, v: VillageState)
    requires c.Clamped()
    requires TickSpec(c, v, None).calledSpawn
    ensures !TickSpec(c, v, None).spawned
    ensures TickSpec(c, v, None).next.stockpile == Consume(c, v.population, v.stockpile)
    ensures TickSpec(c, v, None).next.spawnTimer ==
      Interval(c, MoodFor(c, Consume(c, v.population, v.stockpile)))
  {
  }

  /**
   * A tick returns true only through a successful spawn: the callback was
   * called and returned an id, the cost was paid with a floor of 0, and the
   * timer restarted.
   */
  lemma SpawnIsTheOnlyTrue(c: Config, v: VillageState, spawnResult: Option<int>)
    requires c.Clamped()
    ensures TickSpec(c, v, spawnResult).spawned <==> TickSpec(c, v, spawnResult).calledSpawn && spawnResult.Some?
    ensures TickSpec(c, v, spawnResult).spawned ==>
      var stock := Consume(c, v.population, v.stockpile);
      TickSpec(c, v, spawnResult).next.stockpile == MaxReal(0.0, stock - c.spawnCost) &&
      TickSpec(c, v, spawnResult).next.spawnTimer == Interval(c, MoodFor(c, stock))
  {
  }

  /** Whether the spawner is called depends only on the state, not on what it would return. */
  lemma CallIndependentOfResult(c: Config, v: VillageState, a: Option<int>, b: Option<int>)
    requires c.Clamped()
    ensures TickSpec(c, v, a).calledSpawn == TickSpec(c, v, b).calledSpawn
  {
  }

  /**
   * A tick keeps the population, keeps the mood in step with the
   * stockpile, and keeps the spawn timer between 1 and the base interval.
   */
  lemma TickKeepsInvariant(c: Config, v: VillageState, spawnResult: Option<int>)
    requires c.Clamped()
    requires 1 <= v.spawnTimer <= c.baseSpawnIntervalTicks
    ensures TickSpec(c, v, spawnResult).next.population == v.population
    ensures TickSpec(c, v, spawnResult).next.mood == MoodFor(c, TickSpec(c, v, spawnResult).next.stockpile)
    ensures 1 <= TickSpec(c, v, spawnResult).next.spawnTimer <= c.baseSpawnIntervalTicks
  {
  }

  datatype VillageParameters = VillageParameters(
    entityId: int,
    capacity: int,
    initialPopulation: int,
    initialStockpile: real,
    baseSpawnIntervalTicks: int,
    spawnRateBoostMultiplier: real,
    boostThreshold: real,
    starvationThreshold: real,
    consumptionPerVillagerPerTick: real,
    spawnCost: real,
    maxStockpile: real)

  /** The constructor's clamps: at least 1 for the interval and multiplier, at least 0 for the rest. */
  function ClampParameters(p: VillageParameters): (c: Config)
    ensures c.Clamped()
    ensures c.capacity == p.capacity
    ensures c.baseSpawnIntervalTicks == if p.baseSpawnIntervalTicks < 1 then 1 else p.baseSpawnIntervalTicks
    ensures c.spawnRateBoostMultiplier == MaxReal(1.0, p.spawnRateBoostMultiplier)
    ensures c.boostThreshold == MaxReal(0.0, p.boostThreshold)
    ensures c.starvationThreshold == MaxReal(0.0, p.starvationThreshold)
    ensures c.consumptionPerVillagerPerTick == MaxReal(0.0, p.consumptionPerVillagerPerTick)
    ensures c.spawnCost == MaxReal(0.0, p.spawnCost)
    ensures c.maxStockpile == MaxReal(0.0, p.maxStockpile)
  {
    Config(p.capacity,
           if p.baseSpawnIntervalTicks < 1 then 1 else p.baseSpawnIntervalTicks,
           MaxReal(1.0, p.spawnRateBoostMultiplier),
           MaxReal(0.0, p.boostThreshold),
           MaxReal(0.0, p.starvationThreshold),
           MaxReal(0.0, p.consumptionPerVillagerPerTick),
           MaxReal(0.0, p.spawnCost),
           MaxReal(0.0, p.maxStockpile))
  }

  class Village {
    const entityId: int
    const config: Config

    var population: int
    var resourceStockpile: real
    var spawnTimer: int
    var mood: Mood

    ghost predicate Valid()
      reads this
    {
      config.Clamped() &&
      mood == MoodFor(config, resourceStockpile) &&
      1 <= spawnTimer <= config.baseSpawnIntervalTicks
    }

    /** The state a tick works on. */
    function State(): VillageState
      reads this
    {
      VillageState(population, resourceStockpile, spawnTimer, mood)
    }

    /**
     * The constructor: population and stockpile are taken as given, the
     * other parameters are clamped, the timer starts at the base interval
     * and the mood follows the stockpile.
     */
    constructor (params: VillageParameters)
      ensures Valid()
      ensures entityId == params.entityId && config == ClampParameters(params)
      ensures population == params.initialPopulation
      ensures resourceStockpile == params.initialStockpile
      ensures spawnTimer == config.baseSpawnIntervalTicks
    {
      entityId := params.entityId;
      config := ClampParameters(params);
      population := params.initialPopulation;
      resourceStockpile := params.initialStockpile;
      spawnTimer := ClampParameters(params).baseSpawnIntervalTicks;
      mood := Normal;
      new;
      UpdateMood();
    }

    /** `updateMood`. */
    method UpdateMood()
      requires config.Clamped()
      modifies this`mood
      ensures mood == MoodFor(config, resourceStockpile)
    {
      if resourceStockpile <= config.starvationThreshold {
        mood := Starving;
      } else if resourceStockpile >= config.boostThreshold {
        mood := Boosted;
      } else {
        mood := Normal;
      }
    }

    /** `consumeResources`. */
    method ConsumeResources()
      modifies this`resourceStockpile
      ensures resourceStockpile == Consume(config, population, old(resourceStockpile))
    {
      if config.consumptionPerVillagerPerTick <= 0.0 || population <= 0 {
        return;
      }
      var totalConsumption := population as real * config.consumptionPerVillagerPerTick;
      resourceStockpile := MaxReal(0.0, resourceStockpile - totalConsumption);
    }

    /** `currentSpawnInterval`. */
    function CurrentSpawnInterval(): (r: int)
      requires Valid()
      reads this
      ensures 1 <= r <= config.baseSpawnIntervalTicks
    {
      Interval(config, mood)
    }

    /** `getMood` and `isStarving`. */
    function GetMood(): (r: Mood)
      requires Valid()
      reads this
      ensures r == MoodFor(config, resourceStockpile)
    {
      mood
    }

    /**
     * `tick(options)`: `spawnResult` is what `options.spawnVillager()`
     * returns if the village calls it. The ghost result records whether it
     * was called.
     */
    method Tick(spawnResult: Option<int>) returns (spawned: bool, ghost calledSpawn: bool)
      requires Valid()
      modifies this
      ensures Valid()
      ensures TickSpec(config, old(State()), spawnResult) == TickOutcome(State(), spawned, calledSpawn)
    {
      ConsumeResources();
      UpdateMood();

      var interval := CurrentSpawnInterval();
      if spawnTimer > interval {
        spawnTimer := interval;
      }

      calledSpawn := false;
      if population >= config.capacity {
        spawnTimer := interval;
        return false, calledSpawn;
      }
      if mood == Starving {
        return false, calledSpawn;
      }
      if resourceStockpile < config.spawnCost {
        return false, calledSpawn;
      }

      spawnTimer := spawnTimer - 1;
      if spawnTimer > 0 {
        return false, calledSpawn;
      }

      calledSpawn := true;
      if spawnResult.None? {
        spawnTimer := interval;
        return false, calledSpawn;
      }

      resourceStockpile := MaxReal(0.0, resourceStockpile - config.spawnCost);
      UpdateMood();
      spawnTimer := interval;
      spawned := true;
    }

    /** `addResources`: non-positive amounts are ignored, and the stockpile is capped at `maxStockpile`. */
    method AddResources(amount: real)
      requires Valid()
      modifies this`resourceStockpile, this`mood
      ensures Valid()
      ensures amount <= 0.0 ==> resourceStockpile == old(resourceStockpile)
      ensures 0.0 < amount ==> resourceStockpile == MinReal(config.maxStockpile, old(resourceStockpile) + amount)
      ensures 0.0 < amount ==> resourceStockpile <= config.maxStockpile
    {
      if amount <= 0.0 {
        return;
      }
      resourceStockpile := MinReal(config.maxStockpile, resourceStockpile + amount);
      UpdateMood();
    }

    /** `incrementPopulation`: one more, capped at the capacity. */
    method IncrementPopulation()
      modifies this`population
      ensures population == if old(population) + 1 < config.capacity then old(population) + 1 else config.capacity
      ensures 0 <= old(population) <= config.capacity ==> 0 <= population <= config.capacity
    {
      population := if population + 1 < config.capacity then population + 1 else config.capacity;
    }

    /** `decrementPopulation`: one fewer, never below 0. */
    method DecrementPopulation()
      modifies this`population
      ensures population == if old(population) - 1 > 0 then old(population) - 1 else 0
      ensures 0 <= old(population) <= config.capacity ==> 0 <= population <= config.capacity
    {
      population := if population - 1 > 0 then population - 1 else 0;
    }
  }

  datatype TilePosition = TilePosition(x: int, y: int)

  datatype VillagerBehavior =
    | Idle(idleTicks: int)
    | TravelToResource(path: seq<TilePosition>, resourceType: string, target: TilePosition)
    | Gathering(remainingTicks: int, target: TilePosition, resourceType: string)
    | ReturnHome(path: seq<TilePosition>)
    | Depositing(remainingTicks: int)
    | Fleeing(path: seq<TilePosition>)

  datatype VillagerParameters = VillagerParameters(
    entityId: int,
    homeVillageId: int,
    gatherTicks: int,
    depositTicks: int,
    carryCapacity: real,
    idleTicksBetweenJobs: int)

  /** Every count-down a state carries is in range: idle delays at least 0, job timers at least 1. */
  predicate WellTimed(s: VillagerBehavior)
  {
    match s
    case Idle(t) => 0 <= t
    case Gathering(t, _, _) => 1 <= t
    case Depositing(t) => 1 <= t
    case _ => true
  }

  class Villager {
    const entityId: int
    const homeVillageId: int
    const gatherTicks: int
    const depositTicks: int
    const carryCapacity: real
    const idleTicksBetweenJobs: int

    var state: VillagerBehavior
    var carriedResource: real
    var carriedResourceType: Option<string>

    ghost predicate Valid()
      reads this
    {
      1 <= gatherTicks && 1 <= depositTicks && 1.0 <= carryCapacity && 0 <= idleTicksBetweenJobs
    }

    /**
     * The constructor clamps the timings, starts idle and carries nothing.
     * The initial idle delay is the parameter as given, not the clamped one.
     */
    constructor (params: VillagerParameters)
      ensures Valid()
      ensures entityId == params.entityId && homeVillageId == params.homeVillageId
      ensures gatherTicks == if params.gatherTicks < 1 then 1 else params.gatherTicks
      ensures depositTicks == if params.depositTicks < 1 then 1 else params.depositTicks
      ensures carryCapacity == MaxReal(1.0, params.carryCapacity)
      ensures idleTicksBetweenJobs == if params.idleTicksBetweenJobs < 0 then 0 else params.idleTicksBetweenJobs
      ensures state == Idle(params.idleTicksBetweenJobs)
      ensures carriedResource == 0.0 && carriedResourceType == None
      ensures 0 <= params.idleTicksBetweenJobs ==> WellTimed(state)
    {
      entityId := params.entityId;
      homeVillageId := params.homeVillageId;
      gatherTicks := if params.gatherTicks < 1 then 1 else params.gatherTicks;
      depositTicks := if params.depositTicks < 1 then 1 else params.depositTicks;
      carryCapacity := MaxReal(1.0, params.carryCapacity);
      idleTicksBetweenJobs := if params.idleTicksBetweenJobs < 0 then 0 else params.idleTicksBetweenJobs;
      state := Idle(params.idleTicksBetweenJobs);
      carriedResource := 0.0;
      carriedResourceType := None;
    }

    /** `setIdle(delay)`; an absent delay means the villager's own idle time. */
    method SetIdle(delay: Option<int>)
      requires Valid()
      modifies this`state
      ensures state == Idle(var d := if delay.Some? then delay.value else idleTicksBetweenJobs; if d < 0 then 0 else d)
      ensures WellTimed(state)
    {
      var d := if delay.Some? then delay.value else idleTicksBetweenJobs;
      state := Idle(if d < 0 then 0 else d);
    }

    /** `startTravelToResource`: keeps a copy of the path. */
    method StartTravelToResource(path: seq<TilePosition>, resourceType: string, target: TilePosition)
      modifies this`state
      ensures state == TravelToResource(path, resourceType, target)
    {
      state := TravelToResource(path, resourceType, target);
    }

    /** `startGathering`: the job lasts the villager's gather time. */
    method StartGathering(target: TilePosition, resourceType: string)
      requires Valid()
      modifies this`state
      ensures state == Gathering(gatherTicks, target, resourceType)
      ensures WellTimed(state)
    {
      state := Gathering(gatherTicks, target, resourceType);
    }

    /** `startReturnHome`. */
    method StartReturnHome(path: seq<TilePosition>)
      modifies this`state
      ensures state == ReturnHome(path)
    {
      state := ReturnHome(path);
    }

    /** `startDepositing`: the job lasts the villager's deposit time. */
    method StartDepositing()
      requires Valid()
      modifies this`state
      ensures state == Depositing(depositTicks)
      ensures WellTimed(state)
    {
      state := Depositing(depositTicks);
    }

    /** `startFleeing`. */
    method StartFleeing(path: seq<TilePosition>)
      modifies this`state
      ensures state == Fleeing(path)
    {
      state := Fleeing(path);
    }
  }
}
