# ClickerDominion simulation core in Dafny

A model of the deterministic, tick-based simulation of ClickerDominion, a
browser idle game. The player clicks monsters on an isometric tile grid. A
Dark Lord spends dark energy to corrupt tiles and spawn monster waves. A
doom clock runs down to the end of the run. The model has one Dafny module
per concern:

- `Grid` and `Ecs` (`grid.dfy`, `world.dfy`): the tile grid and the entity
  store of `src/ecs/world.ts`. `Ecs.World` is a class whose fields are the id
  counter, the entity set, the sixteen component tables (one `map` or `set`
  each), the grid, the clock, the economy and the state the tick systems
  read. It covers creating a world, allocating and removing entities,
  spawning monsters, and the initial town, roads, hero, doom clock and
  monsters.
- `Pathfinding` (`pathfinding.dfy`): A* and breadth-first search over
  4-connected cells, written as loop methods over the open set, the queue and
  the score tables. Returned paths are proved valid. A path is proved to
  exist exactly when one is returned, and the breadth-first path is proved
  shortest.
- `Villages`, `Resources` and `VillageRegistry` (`village.dfy`,
  `resource_tile.dfy`, `entity_manager.dfy`): the village economy state
  machine, the villager state setters, the depleting resource node, and the
  villager-to-village bookkeeping.
- `Intents` (`intents.dfy`): the click and ability queues, drained once per
  tick.
- The tick systems of `src/logic/systems.ts`:
  - `Pipeline` and `TickSystems` (`tick_systems.dfy`): system order, time,
    doom clock and floating numbers.
  - `Combat` (`combat.dfy`): click combat and kill rewards.
  - `StatusEffects` (`status_effects.dfy`): rally auras and cleanse channels.
  - `Towns` (`towns.dfy`): town contact.
  - `DarkLord` and `Shuffle` (`dark_lord.dfy`, `shuffle.dfy`): cooldowns,
    cadence, action choice, tile corruption and wave spawning.
  - `RunStatus` (`run_status.dfy`): win and loss.
  - `MonsterSearch` (`monster_search.dfy`): nearest-villager choice.
  - `Militia` (`militia.dfy`): patrol and return.
- Small cores:
  - `Events` (`event_dispatcher.dfy`): the listener registry.
  - `Checks` (`checks.dfy`): the self-check latch.
  - `XorShift` and `Lcg` (`rng.dfy`): the two 32-bit generators.
  - `Isometric` (`isometric.dfy`): tile and screen conversion.
  - `HudClock` (`hud_clock.dfy`): `mm:ss` formatting.
  - `Wrappers` (`wrappers.dfy`): `Option`.

The tick systems read world fields that the `World` type in
`src/ecs/world.ts` does not declare: the village table, the run state, the
gathered-resource statistic and the event list. `Ecs.World` has them as
extra fields. Militia state is its own class, `Militia.MilitiaState`.
`removeEntity` purges only the sixteen tables that `src/ecs/world.ts` lists.

JavaScript numbers used as counters, ids, hit points and integrity are
`int`. Doom seconds, corruption, progress, yields, dark energy and
generator outputs are exact `real`s. The generators' 32-bit state is
`bv32`, so the shifts and the wrap-around are exact.

Iteration order: a JavaScript `Map` or `Set` visits its entries in
insertion order. Ids come from a counter, and most tables gain an entry
only when the entity is made, so there insertion order is id order and the
first entry visited is modelled as the entry with the least id. Two tables
gain entries later: `rallyAura` when a rally is triggered and `cleanse`
when a cleanse is triggered (src/logic/systems.ts:1705 and 1724), so their
order can differ from id order. The model of the status-effect system does
not depend on their order: each aura ticks down on its own entry alone, and
every cleanse channel applies the same clamp-and-wipe map to its target
tile, so channels on the same tile compose to the same result in any order
and channels on different tiles do not interact.

## Model

| member | source | states |
|---|---|---|
| Grid.CreateGrid | src/ecs/world.ts:72-80 | the grid has the given width and height, one tile per cell (none when a side is not positive), every tile plain, uncorrupted and at zero progress |
| Grid.GridIndexInRange | src/ecs/world.ts:82-84 | the index `y * width + x` of an in-bounds cell lies in `[0, width*height)` and gives back `x` and `y` by remainder and quotient |
| Grid.GridIndexInjective | src/ecs/world.ts:82-84 | distinct in-bounds cells have distinct indices |
| Grid.GetTile | src/ecs/world.ts:86-91 | nothing exactly when the cell is out of bounds, otherwise the tile stored at the cell's index |
| Grid.CreatedGridLookup | src/ecs/world.ts:72-91 | every lookup inside a freshly created grid finds a plain tile |
| Grid.SetTile | src/ecs/world.ts:196-211 | an in-place tile edit keeps the grid's shape and the lookup at the edited cell returns the new tile |
| Grid.SetTileFrame | src/ecs/world.ts:196-211 | an in-place tile edit leaves the lookup of every other cell unchanged |
| Villages.MoodCases | src/logic/simulation/entities.ts:122-130 | starving iff the stockpile is at most the starvation threshold; boosted iff above it and at least the boost threshold; normal iff strictly between |
| Villages.Interval | src/logic/simulation/entities.ts:132-138 | the spawn interval lies in `[1, base]`, and is the base interval unless the village is boosted with a multiplier above 1 |
| Villages.ConsumeBounds | src/logic/simulation/entities.ts:114-120 | eating never drives the stockpile below 0 or above what it was, and is a no-op when nobody eats or the rate is not positive |
| Villages.NoSpawnWhenBlocked | src/logic/simulation/entities.ts:64-75 | a full, starving or too poor village neither spawns nor calls the spawner |
| Villages.FailedSpawnKeepsStockpile | src/logic/simulation/entities.ts:82-86 | when the spawner returns null, the tick reports false, the timer restarts at the current interval and the stockpile is what eating left |
| Villages.SpawnIsTheOnlyTrue | src/logic/simulation/entities.ts:77-91 | a tick returns true iff the spawner was called and returned an id; then the cost is paid with a floor of 0 and the timer restarts |
| Villages.CallIndependentOfResult | src/logic/simulation/entities.ts:55-82 | whether the spawner is called depends only on the village, not on what the spawner would return |
| Villages.TickKeepsInvariant | src/logic/simulation/entities.ts:55-92 | a tick keeps the population, keeps the mood in step with the stockpile and keeps the timer in `[1, base]` |
| Villages.ClampParameters | src/logic/simulation/entities.ts:44-50 | the interval and multiplier are at least 1 and thresholds, rate, cost and cap at least 0, each otherwise as given |
| Villages.Village.constructor | src/logic/simulation/entities.ts:39-53 | population and stockpile as given, parameters clamped, the timer at the base interval, the mood following the stockpile |
| Villages.Village.UpdateMood | src/logic/simulation/entities.ts:122-130 | the mood becomes the one the thresholds give for the stockpile |
| Villages.Village.ConsumeResources | src/logic/simulation/entities.ts:114-120 | the stockpile becomes what eating leaves, bounded as `ConsumeBounds` states |
| Villages.Village.CurrentSpawnInterval | src/logic/simulation/entities.ts:132-138 | an interval between 1 and the base interval |
| Villages.Village.GetMood | src/logic/simulation/entities.ts:110-112 | the mood the thresholds give for the current stockpile |
| Villages.Village.Tick | src/logic/simulation/entities.ts:55-92 | the new state, result and spawner call are exactly the tick outcome whose properties the lemmas above state |
| Villages.Village.AddResources | src/logic/simulation/entities.ts:94-100 | a non-positive amount changes nothing; otherwise the stockpile grows by the amount, capped at `maxStockpile` |
| Villages.Village.IncrementPopulation | src/logic/simulation/entities.ts:102-104 | one more villager, capped at the capacity, so the population stays in `[0, capacity]` |
| Villages.Village.DecrementPopulation | src/logic/simulation/entities.ts:106-108 | one fewer villager, never below 0, so the population stays in `[0, capacity]` |
| Villages.Villager.constructor | src/logic/simulation/entities.ts:179-187 | timings clamped, idle with the given delay, carrying nothing |
| Villages.Villager.SetIdle | src/logic/simulation/entities.ts:189-191 | idle with the given delay, or the villager's own, floored at 0 |
| Villages.Villager.StartTravelToResource | src/logic/simulation/entities.ts:193-200 | travelling along a copy of the path to the target |
| Villages.Villager.StartGathering | src/logic/simulation/entities.ts:202-209 | gathering for the villager's gather time |
| Villages.Villager.StartReturnHome | src/logic/simulation/entities.ts:211-213 | returning home along the path |
| Villages.Villager.StartDepositing | src/logic/simulation/entities.ts:215-217 | depositing for the villager's deposit time |
| Villages.Villager.StartFleeing | src/logic/simulation/entities.ts:219-221 | fleeing along the path |
| Resources.TickYield | src/logic/simulation/ResourceTile.ts:55-61 | 0 for a non-positive yield, otherwise the share that, over the whole duration, adds up to the yield |
| Resources.GatherBounds | src/logic/simulation/ResourceTile.ts:37-49 | nothing is taken from a depleted node or for a non-positive request; otherwise at most the yield, the request and what is left, and exactly that much leaves the node |
| Resources.DepletedIsAbsorbing | src/logic/simulation/ResourceTile.ts:44-47 | a depleted node stays depleted and gives nothing |
| Resources.GatherConserves | src/logic/simulation/ResourceTile.ts:37-49 | over any series of gathers, the total taken plus what is left equals the starting amount |
| Resources.ResourceTile.constructor | src/logic/simulation/ResourceTile.ts:24-35 | amount at least 0, duration at least 1, yield at least 0; depleted iff created empty |
| Resources.ResourceTile.GatherTick | src/logic/simulation/ResourceTile.ts:37-49 | returns the amount `GatherBounds` bounds and leaves the node in the state it describes |
| Resources.ResourceTile.IsDepleted | src/logic/simulation/ResourceTile.ts:51-53 | true exactly when nothing is left |
| VillageRegistry.Bump | src/logic/simulation/EntityManager.ts:15-16 | the village's count goes up by one (from 0 when absent); no other count changes |
| VillageRegistry.Drop | src/logic/simulation/EntityManager.ts:39-40 | the village's count goes down by one with a floor of 0; no other count changes |
| VillageRegistry.DropUndoesBump | src/logic/simulation/EntityManager.ts:13-46 | removing a villager undoes registering it, for every village's count |
| VillageRegistry.EntityManager.constructor | src/logic/simulation/EntityManager.ts:3-6 | all three maps empty |
| VillageRegistry.EntityManager.RegisterVillage | src/logic/simulation/EntityManager.ts:8-11 | stores the village and sets its count to its population |
| VillageRegistry.EntityManager.RegisterVillager | src/logic/simulation/EntityManager.ts:13-21 | maps the villager to its village, counts it, and raises a registered village's population, capped at its capacity; of that village only the population may change |
| VillageRegistry.EntityManager.GetVillage | src/logic/simulation/EntityManager.ts:23-25 | the stored village, or none |
| VillageRegistry.EntityManager.GetVillagerCount | src/logic/simulation/EntityManager.ts:27-29 | 0 for an unknown village, otherwise its count |
| VillageRegistry.EntityManager.GetHomeVillage | src/logic/simulation/EntityManager.ts:31-33 | the villager's home village, or none |
| VillageRegistry.EntityManager.RemoveEntity | src/logic/simulation/EntityManager.ts:35-52 | a villager loses its mapping, its count drops with a floor of 0 and its village's population drops; else a village is dropped with its count, keeping villager mappings; any other id changes nothing; of the home village only the population may change |
| VillageRegistry.EntityManager.Clear | src/logic/simulation/EntityManager.ts:54-58 | all three maps empty |
| Intents.IntentState.constructor | src/logic/intents.ts:18-24 | both queues empty and nothing consumed |
| Intents.IntentState.QueueClick | src/logic/intents.ts:26-28 | the click is appended and earlier clicks are kept |
| Intents.IntentState.QueueAbility | src/logic/intents.ts:30-32 | the request is appended and earlier requests are kept |
| Intents.IntentState.BeginTick | src/logic/intents.ts:34-36 | the consumed flag is cleared and the queues are untouched |
| Intents.IntentState.ConsumeIntents | src/logic/intents.ts:38-50 | returns both queues as they were, in order, empties them and sets the consumed flag |
| Intents.ConsumeTwice | src/logic/intents.ts:38-50 | a second drain with no queueing in between returns empty lists |
| Events.Add | src/logic/events/EventDispatcher.ts:14 | the bucket gains the listener, keeps the others and stays duplicate-free |
| Events.Remove | src/logic/events/EventDispatcher.ts:31 | the bucket loses exactly that listener and stays duplicate-free |
| Events.OnMap | src/logic/events/EventDispatcher.ts:8-16 | the event's bucket, created if missing, holds the listener besides its old members; other events untouched; no empty buckets |
| Events.OffMap | src/logic/events/EventDispatcher.ts:26-35 | no bucket means no change; otherwise the listener leaves the bucket, which is deleted once empty; other events untouched |
| Events.RemoveAppended | src/logic/events/EventDispatcher.ts:14-31 | deleting a listener just added to a bucket that lacked it gives the old bucket back |
| Events.OffUndoesOn | src/logic/events/EventDispatcher.ts:8-16 | calling the unsubscribe `on` returns restores the registry exactly |
| Events.OffOncesContents | src/logic/events/EventDispatcher.ts:18-24 | after fired once-wrappers remove themselves, the bucket holds exactly its other listeners |
| Events.EventDispatcher.constructor | src/logic/events/EventDispatcher.ts:6 | no buckets |
| Events.EventDispatcher.On | src/logic/events/EventDispatcher.ts:8-16 | the registry becomes `OnMap` of the old one and the returned unsubscribe names this event and listener |
| Events.EventDispatcher.Once | src/logic/events/EventDispatcher.ts:18-24 | registers a fresh wrapper, one not registered before, and returns its unsubscribe |
| Events.EventDispatcher.Off | src/logic/events/EventDispatcher.ts:26-35 | the registry becomes `OffMap` of the old one |
| Events.EventDispatcher.Unsubscribe | src/logic/events/EventDispatcher.ts:15 | the registry loses the subscribed listener, as `off` does |
| Events.EventDispatcher.Clear | src/logic/events/EventDispatcher.ts:37-39 | no buckets remain |
| Events.EventDispatcher.Dispatch | src/logic/events/EventDispatcher.ts:41-50 | nothing without a bucket; otherwise calls, in order, exactly the listeners of the snapshot, and once-wrappers unregister themselves |
| Events.DispatchRetiresOnceListeners | src/logic/events/EventDispatcher.ts:18-24 | after a dispatch no once-wrapper it ran is registered, while every direct listener it ran still is |
| Checks.Message | src/utils/checks.ts:39-40 | the label alone for an absent or empty detail, otherwise exactly label, " — ", detail |
| Checks.FailIsAbsorbing | src/utils/checks.ts:46-48 | once failed, no series of later reports changes a check |
| Checks.EndsFailedIff | src/utils/checks.ts:35-53 | a check ends failed iff it started failed or some report was a failure |
| Checks.EndsPassedIff | src/utils/checks.ts:35-53 | a check ends passed iff no failure came and it started passed or some pass came |
| Checks.CheckRegistry.constructor | src/utils/checks.ts:18-24 | every check unknown and nothing logged |
| Checks.CheckRegistry.ReportCheckPass | src/utils/checks.ts:35-43 | an unknown check becomes pass and one line is logged; a decided check is left alone and nothing is logged |
| Checks.CheckRegistry.ReportCheckFail | src/utils/checks.ts:45-53 | any check not failed becomes fail and one line is logged; a failed one is left alone |
| XorShift.ToUint32 | src/utils/rng.ts:5 | `seed >>> 0`: in `[0, 2^32)` and congruent to the seed modulo 2^32 |
| XorShift.Unit | src/utils/rng.ts:15 | `state / 0xffffffff` lies in [0, 1] and is 0 only for the zero state |
| XorShift.StepZeroOnlyFromZero | src/utils/rng.ts:10-14 | the step maps a state to 0 exactly when the state is 0 |
| XorShift.IterateAdd | src/utils/rng.ts:8-16 | `m` calls of `next` followed by `n` more leave the state that `m + n` calls leave |
| XorShift.ZeroIsAbsorbing | src/utils/rng.ts:10-14 | a zero state stays zero for ever |
| XorShift.NonZeroStaysNonZero | src/utils/rng.ts:10-14 | a non-zero state never reaches zero |
| XorShift.ScaleWithinBounds | src/utils/rng.ts:18-20 | `min + (max - min) * u` lies in [min, max] for `u` in [0, 1] |
| XorShift.Rng.constructor | src/utils/rng.ts:4-6 | the state is the seed modulo 2^32 |
| XorShift.Rng.Next | src/utils/rng.ts:8-16 | the state takes one xorshift32 step and the result is the new state scaled into [0, 1] |
| XorShift.Rng.Range | src/utils/rng.ts:18-20 | one step, then the affine map into [min, max] |
| Lcg.Step | src/core/rng.ts:7 | `(seed * 1664525 + 1013904223) >>> 0`: in `[0, 2^32)` and congruent to the product modulo 2^32 |
| Lcg.StepIsExactInDoubles | src/core/rng.ts:7 | the intermediate product stays below 2^53, so the source's double arithmetic is exact |
| Lcg.Unit | src/core/rng.ts:8 | `seed / 0xffffffff` lies in [0, 1] |
| Lcg.Rng.constructor | src/core/rng.ts:3-5 | the seed is stored modulo 2^32 |
| Lcg.Rng.Next | src/core/rng.ts:6-9 | the seed takes one LCG step and stays in `[0, 2^32)`; the result is the seed scaled into [0, 1] |
| Lcg.SameSeedSameSequence | src/core/rng.ts:2-9 | two generators built with the same seed return the same outputs, call for call |
| Isometric.ToTile | src/render/isometric.ts:15-22 | integer coordinates: the floors of the two diagonal coordinates |
| Isometric.ToTileInvertsToScreen | src/render/isometric.ts:8-22 | converting a whole tile to the screen and back gives the same tile |
| Isometric.SwapMirrorsScreenX | src/render/isometric.ts:10-11 | swapping the tile coordinates negates screen x and keeps screen y |
| HudClock.Clamp | src/ui/hud.ts:93 | at least 0, and the input itself when it is not negative |
| HudClock.Split | src/ui/hud.ts:94-95 | seconds below 60, and minutes and seconds together are the whole seconds of the clamped time |
| HudClock.Digits | src/ui/hud.ts:96 | at least one decimal digit and nothing else |
| HudClock.PadTwo | src/ui/hud.ts:96 | left-padded to at least two characters |
| HudClock.PadTwoKeepsValue | src/ui/hud.ts:96 | padding with zeros keeps the value of the digits |
| HudClock.DigitsLengthAtMostTwo | src/ui/hud.ts:96 | a number has at most two digits exactly when it is below 100 |
| HudClock.FormatClockRoundTrip | src/ui/hud.ts:92-97 | reading the text back gives exactly the minutes and seconds of the clamped time |
| HudClock.FormatClockLength | src/ui/hud.ts:92-97 | the text has five characters exactly when the clamped time is below 6000 seconds |
| HudClock.NegativeShowsZero | src/ui/hud.ts:93 | a negative time shows as `00:00` |
| Ecs.PurgeClears | src/ecs/world.ts:137-156 | after the sixteen deletions the entity has no component left, and the store still belongs to the remaining entities |
| Ecs.PurgeKeepsOthers | src/ecs/world.ts:137-156 | the deletions leave every other entity's components as they were |
| Ecs.WithMonsterEffect | src/ecs/world.ts:259-276 | the new entity is a monster of the kind at the tile with hp and max equal to the kind's hp, a sprite, cooldowns and a click target; no other entity changes |
| Ecs.Cadence | src/ecs/world.ts:235 | the dark-energy cadence is the rounded cadence, but at least 1 |
| Ecs.WithTownEffect | src/ecs/world.ts:213-218 | the entity becomes the town at its spawn tile with full integrity and a click target; no other entity changes |
| Ecs.WithHeroEffect | src/ecs/world.ts:220-228 | the entity becomes the hero at its spawn tile with full health and a click target; no other entity changes |
| Ecs.WithDoomEffect | src/ecs/world.ts:230-242 | the entity carries the doom clock at its start value and an empty dark-energy pool with zero cooldowns; no other entity changes |
| Ecs.SpawnAllOutside | src/ecs/world.ts:245-247 | spawning a series of monsters leaves every entity outside the new ids unchanged |
| Ecs.SpawnAllInside | src/ecs/world.ts:245-247 | the `k`-th spawn of a series makes entity `first + k` the monster it describes |
| Ecs.SpawnAllWithin | src/ecs/world.ts:245-247 | a series of spawns adds components only to the new ids |
| Ecs.InitialEntities | src/ecs/world.ts:192-248 | a new world holds the town as entity 1, the hero as 2, the doom clock as 3 and the configured monsters from 4 on, in order, and nothing else |
| Ecs.SetupTileChanges | src/ecs/world.ts:196-256 | the setup makes the town's tile `town`, turns only plain four-neighbours into `road`, seeds corruption only north-west of the town and changes nothing else |
| Ecs.World.constructor | src/ecs/world.ts:109-125 | a plain grid of the configured size, no entities, the counter at 1, tick, seconds and gold at 0, empty intent queues and a generator seeded from the balance |
| Ecs.World.CreateEntity | src/ecs/world.ts:131-135 | returns the old counter, raises it by one and adds the id, which no live entity had, to the entity set |
| Ecs.World.RemoveEntity | src/ecs/world.ts:137-156 | the entity leaves the entity set and the sixteen tables; every other entity keeps its components |
| Ecs.IdRange | src/ecs/world.ts:131-135 | exactly the ids from `lo` up to `hi - 1`, the ones the counter hands out while moving from `lo` to `hi` |
| Ecs.World.SpawnMonster | src/ecs/world.ts:259-276 | a fresh entity that is a full-health monster of the kind at the tile; no other entity changes |
| Ecs.World.LayTownAndRoads | src/ecs/world.ts:196-211 | the town tile becomes `town` and each plain four-neighbour becomes `road`, in the source's order |
| Ecs.World.LayRoad | src/ecs/world.ts:207-210 | one road offset: a plain in-bounds tile there becomes `road` |
| Ecs.World.SpawnStartingEntities | src/ecs/world.ts:213-247 | the town, hero and doom-clock entities, then one monster per configured spawn, on consecutive ids |
| Ecs.World.SpawnFixedEntities | src/ecs/world.ts:213-242 | the town, the hero and the doom clock on three consecutive ids |
| Ecs.World.SpawnMonsters | src/ecs/world.ts:245-247 | one monster per spawn, in order, on consecutive ids, which are exactly the new entities |
| Ecs.World.AddTown | src/ecs/world.ts:215-218 | the town's components for the new entity |
| Ecs.World.AddHero | src/ecs/world.ts:222-228 | the hero's components for the new entity |
| Ecs.World.AddDoom | src/ecs/world.ts:232-242 | the doom clock's components for the new entity |
| Ecs.World.SpawnInitialEntities | src/ecs/world.ts:192-257 | the tile edits of the setup, then the starting entities on consecutive ids |
| Ecs.CreateWorld | src/ecs/world.ts:108-129 | the grid of the setup, the counter at 4 plus the number of monsters, the initial entities, and tick, seconds and gold at 0 |
| Pathfinding.HeuristicIsConsistent | src/logic/pathfinding.ts:85-87 | the Manhattan heuristic changes by at most one per move and is 0 exactly at the goal |
| Pathfinding.PointOfIndexOf | src/logic/pathfinding.ts:130-138 | an in-grid cell's index lies in range and `pointOf(indexOf(x, y)) == (x, y)` |
| Pathfinding.IndexOfPointOf | src/logic/pathfinding.ts:130-138 | an index in range names an in-grid cell and `indexOf(pointOf(i)) == i` |
| Pathfinding.CandidatesAreAdjacent | src/logic/pathfinding.ts:113-128 | the four candidates are exactly the cells one unit step away |
| Pathfinding.NeighborPoints | src/logic/pathfinding.ts:113-128 | the in-grid candidates in the order `+x, -x, +y, -y`; a cell is listed exactly when it is an in-grid neighbour |
| Pathfinding.LowestF | src/logic/pathfinding.ts:89-100 | -1 when no open entry has a score; otherwise a scored entry with the least f score, the first such in insertion order |
| Pathfinding.ReconstructPath | src/logic/pathfinding.ts:102-111 | the cells of the predecessor chain that ends at `current`, from its first cell (which has no predecessor) to `current` |
| Pathfinding.ClosedSetHoldsWalk | src/logic/pathfinding.ts:61-80 | a set of cells holding the start and closed under moves holds the end of every walk |
| Pathfinding.NoPathOutsideClosedSet | src/logic/pathfinding.ts:47 | a move-closed set holding the start but not the goal rules out every path, which is why an exhausted search may answer `[]` |
| Pathfinding.BfsFoundShortest | src/logic/pathfinding.ts:63-64 | the path rebuilt when the goal leaves the queue is valid and no valid path is shorter |
| Pathfinding.BfsVisitNeighbors | src/logic/pathfinding.ts:68-79 | visits each unvisited in-grid neighbour that is walkable or the goal, records its predecessor and queues it, keeping the search invariant |
| Pathfinding.FindPathBfs | src/logic/pathfinding.ts:50-83 | `[start]` when start and goal coincide; otherwise a valid path (from start to goal, unit steps inside the grid, every cell after the start walkable or the goal) of least length, or `[]` exactly when none exists |
| Pathfinding.Without | src/logic/pathfinding.ts:29 | `openSet.delete`: the other entries, shorter when the entry was present, still duplicate-free |
| Pathfinding.AddIfAbsent | src/logic/pathfinding.ts:41 | `openSet.add`: the entries plus the new one |
| Pathfinding.AstarRelaxNeighbors | src/logic/pathfinding.ts:31-43 | for each neighbour that is walkable or the goal, a strictly better g score replaces the old one, records the predecessor and opens the cell, keeping the search invariant |
| Pathfinding.AstarFoundValid | src/logic/pathfinding.ts:24-26 | the path rebuilt when the goal is chosen is valid |
| Pathfinding.AstarMeasureDecreases | src/logic/pathfinding.ts:22-44 | each expansion records a new cell, lowers a g score or shrinks the open set, so the search ends |
| Pathfinding.FindPath | src/logic/pathfinding.ts:10-47 | `[start]` when start and goal coincide; otherwise a valid path, or `[]` exactly when no valid path exists |
| Militia.Staircase | src/logic/systems.ts:1631-1648 | a walk from a cell to the goal that starts at the cell and ends at the goal |
| Militia.StaircaseSteps | src/logic/systems.ts:1636-1641 | every move of that walk stays in the grid and is one unit step, so it is legal under the in-bounds walkability |
| Militia.AlwaysConnected | src/logic/systems.ts:1636-1645 | under the in-bounds walkability any two cells of the grid are joined by a valid path |
| Militia.ComputePath | src/logic/systems.ts:1631-1648 | no moves exactly when start and goal coincide; otherwise moves that, with the start in front, form a valid path; the null answer never comes back |
| Militia.FirstMove | src/logic/systems.ts:1439-1442 | the first move of such a path goes to an adjacent cell inside the grid |
| Militia.NextWaypoint | src/logic/systems.ts:1426 | the next route index lies on the route: one more, wrapping from the last waypoint to the first |
| Militia.MilitiaState.Target | src/logic/systems.ts:1424 | the waypoint the unit heads for is on its route |
| Militia.MilitiaState.HandlePatrol | src/logic/systems.ts:1420-1445 | no route: nothing changes; on the waypoint: the index moves on cyclically and the unit pauses; paused or cooling down: nothing changes; otherwise the unit steps to the first cell of `moves`, a valid path from its cell to the waypoint it was heading for (an adjacent grid cell), and the move cooldown restarts |
| Militia.MilitiaState.HandleReturn | src/logic/systems.ts:1518-1543 | outside the return behaviour nothing changes; an empty path switches to patrol and pauses; cooling down: nothing changes; otherwise the unit steps onto the first cell, which leaves the path, the cooldown restarts, and after the last cell it patrols and pauses |
| Militia.ReturnShortens | src/logic/systems.ts:1535-1542 | each move on the way back shortens what is left by one and never leaves an empty return path |
| MonsterSearch.NearestIsUnique | src/logic/systems.ts:843-849 | at most one villager fits the nearest-with-smallest-id rule, so the walking order of the map does not change the answer |
| MonsterSearch.FindNearestVillagerWithinRadius | src/logic/systems.ts:833-852 | none exactly when no villager is within the Manhattan radius; otherwise one in reach at least as near as every other, the smallest id among equals |
| RunStatus.Finished | src/logic/systems.ts:1150-1164 | a running run takes the outcome, reason, condition and end time; an ended run is left as it is |
| RunStatus.EndedStaysEnded | src/logic/systems.ts:1151-1153 | once ended, no series of finish requests changes the run |
| RunStatus.FirstFinishWins | src/logic/systems.ts:1150-1164 | the run leaves `running` at most once: of any series of win or loss requests, the first decides the outcome |
| RunStatus.FinishRun | src/logic/systems.ts:1150-1164 | the run state becomes `Finished` of the old one at the current tick and time |
| RunStatus.VerdictPriority | src/logic/systems.ts:1170-1187 | an emptied village that once had people means a loss whatever the clock or gathering; a win needs a positive goal that was met; a verdict never means `running` |
| RunStatus.LeastKey | src/logic/systems.ts:1170 | the least key of a set, or none for the empty set |
| RunStatus.FirstPopulation | src/logic/systems.ts:1170-1171 | the population of the first village, none when there is no village |
| RunStatus.WinLossSystem | src/logic/systems.ts:1166-1188 | an ended run is left alone; a running one ends with the verdict for the first village, the clock and the gathered resources, checked in that order, or keeps running |
| RunStatus.EconomySystem | src/logic/systems.ts:1143-1148 | gold and shards each become exactly `Math.max(0, v)` of their old value: a negative count becomes 0 and a non-negative one is kept |
| Pipeline.CreateSystemPipeline | src/logic/systems.ts:30-48 | fifteen systems, each at its place in the tick order |
| Pipeline.PipelineRunsEverySystem | src/logic/systems.ts:30-48 | every system is in the pipeline, at its rank |
| Pipeline.PipelineHasNoRepeats | src/logic/systems.ts:30-48 | no system runs twice in one tick |
| TickSystems.SurvivorsAppend | src/logic/systems.ts:56-62 | decaying a list decays each part separately, in order |
| TickSystems.SurvivorsComeFromOld | src/logic/systems.ts:56-62 | decay never adds a floating number; each one still shown has life left and was in the old list with one more tick |
| TickSystems.LongLivedSurvive | src/logic/systems.ts:56-62 | every floating number with more than one tick of life left is still shown, one tick older |
| TickSystems.DecayFloatingNumbers | src/logic/systems.ts:56-62 | the backward splicing loop leaves exactly the decayed survivors, in their order |
| TickSystems.TimeSystem | src/logic/systems.ts:50-63 | the intent flag is reset, the events are cleared, the tick grows by one, the seconds are the tick over the tick rate, and the floating numbers decay |
| TickSystems.ShiftDoom | src/logic/systems.ts:1984-1991 | the same clocks; a zero delta changes nothing; otherwise no clock is negative afterwards, and one that was not negative stays so |
| TickSystems.DrainsCompose | src/logic/systems.ts:1984-1991 | two drains in a row equal one drain of their sum |
| TickSystems.ShiftMonotone | src/logic/systems.ts:1984-1991 | a gain never lowers a clock and a drain never raises one |
| TickSystems.AdjustDoomClock | src/logic/systems.ts:1984-1991 | every doom clock becomes `max(0, seconds + delta)`, nothing else changes, and a zero delta changes nothing |
| TickSystems.DoomClockSystem | src/logic/systems.ts:65-72 | a drain rate of 0 or less changes nothing; a positive one takes one tick's worth of seconds off every doom clock |
| Combat.TopClickableUnique | src/logic/systems.ts:1754-1770 | the click rule picks one answer for every tile |
| Combat.MonstersTakeClicksFirst | src/logic/systems.ts:1762-1765 | a monster on the tile always gets the click, the earliest one if there are several |
| Combat.FindTopClickable | src/logic/systems.ts:1754-1770 | the earliest clickable monster on the tile, else the latest other clickable there, else none |
| Combat.LeastExists | src/logic/systems.ts:1797-1802 | every non-empty set of ids has a least one, so the first map entry exists |
| Combat.FirstKey | src/logic/systems.ts:1797-1802 | the least key of the set, none when it is empty |
| Combat.FirstDarkEnergy | src/logic/systems.ts:1797-1802 | the id of the first dark-energy entry, none when there is none |
| Combat.FirstKeyUnique | src/logic/systems.ts:1797-1802 | a set has a single first key |
| Combat.FeedDark | src/logic/systems.ts:114-117 | only the dark-energy table changes, and it keeps its entries |
| Combat.FeedDarkEffect | src/logic/systems.ts:114-117 | the first entry gains exactly the kill gain; every other entry is unchanged |
| Combat.ComputeClickDamage | src/logic/systems.ts:1772-1777 | one draw of the generator; a critical hit exactly when it falls below the crit chance, with the rounded crit damage, else the rounded base damage |
| Combat.PushFloatingNumber | src/logic/systems.ts:1779-1783 | the number joins the back of the list with the configured lifetime |
| Combat.OnEntityDefeated | src/logic/systems.ts:1785-1790 | a monster pays its bounty and any other entity pays nothing; the entity and all its components are gone |
| Numbers.Max0 | src/logic/systems.ts:110 | `Math.max(0, v)` on integers: at least 0 and at least v, and one of the two |
| Numbers.Max0Real | src/logic/systems.ts:154-155 | `Math.max(0, v)` on reals: at least 0 and at least v, and one of the two |
| Combat.SlainEffect | src/logic/systems.ts:112-118 | a slain entity has no component left, the others keep their health, and no doom clock turns negative |
| Combat.StruckEffect | src/logic/systems.ts:107-119 | the target's hp becomes `max(0, hp - damage)`, a target at 0 loses every component, and no other entity's health changes |
| Combat.StruckKeepsDoomNonNegative | src/logic/systems.ts:112-122 | a hit followed by the per-action drain leaves non-negative doom clocks non-negative |
| Combat.DrainedKeepsDoomNonNegative | src/logic/systems.ts:96-98 | the per-action drain alone leaves non-negative doom clocks non-negative |
| Combat.Wound | src/logic/systems.ts:107 | only the target's hp changes |
| Combat.Kill | src/logic/systems.ts:111-118 | the defeat pays a monster's bounty and removes the target; every doom clock gains the kill bonus and the first dark-energy entry gains the kill gain |
| Combat.DrainForAction | src/logic/systems.ts:120-122 | the store after the per-action drain, which applies only when positive |
| Combat.ResolveClick | src/logic/systems.ts:92-122 | the world moves by `ClickStep`: the target is the one the click rule picks; with no target or no health only the drain is paid and nothing else changes, the generator included; a hit draws one number, picks crit or normal damage from it, shows a floating number when enabled, strikes, kills at 0 hp, pays the bounty for a monster, and pays the drain |
| Combat.Strike | src/logic/systems.ts:106-122 | the hit branch: one draw, the hp drop, the kill at 0 hp with its bounty and bonuses, the floating number, then the drain |
| Combat.MonsterKills | src/logic/systems.ts:111-113 | a count of the clicks that killed a monster, at most the number of clicks |
| Combat.MonsterKillsAppend | src/logic/systems.ts:111-113 | one more outcome adds one kill, and one bounty, exactly when it killed a monster |
| Combat.CombatResolutionSystem | src/logic/systems.ts:88-126 | one outcome per click, in order: the ghost trace starts at the world before the system and ends at the world after it, and the i-th click takes entry i to entry i+1 with the i-th outcome by `ClickStep`; hence entities only go away, gold rises by the bounty once per monster killed, shards are untouched, every killed target is gone, and non-negative doom clocks stay non-negative |
| Combat.ClickChainSummary | src/logic/systems.ts:88-126 | over any run of clicks: entities only go away, gold rises by the bounty once per monster killed, shards are untouched, every killed target is gone at the end, and non-negative doom clocks stay non-negative |
| StatusEffects.TickAura | src/logic/systems.ts:129-145 | the active time runs down first; once spent, it is 0 and the cooldown runs down; radius, bonus and duration are kept |
| StatusEffects.AuraCountsDown | src/logic/systems.ts:130-132 | after n ticks the active time left is the old one minus n, stopping at 0 |
| StatusEffects.ReadyStaysReady | src/logic/systems.ts:139-145 | an aura with no active time and no cooldown stays so |
| StatusEffects.AuraReadyAfter | src/logic/systems.ts:129-145 | an aura is ready again at the latest after its active time plus its cooldown |
| StatusEffects.TickedAuras | src/logic/systems.ts:129-146 | every aura ticks, none is added or dropped |
| StatusEffects.TickChannel | src/logic/systems.ts:148-172 | an active channel loses a tick of channel time; otherwise a positive cooldown loses a tick; nothing else changes |
| StatusEffects.TickedChannels | src/logic/systems.ts:148-173 | every channel ticks, none is added or dropped |
| StatusEffects.Scrubbed | src/logic/systems.ts:152-166 | corruption and progress fall by the reduction, stop at 0, and traces of 0.0001 or less are wiped; the tile counts as corrupted exactly when corruption is left; no progress means not corrupting |
| StatusEffects.ScrubStep | src/logic/systems.ts:149-167 | the grid keeps its shape and stays well-formed |
| StatusEffects.ScrubUpTo | src/logic/systems.ts:148-173 | the grid keeps its shape and stays well-formed after every channel has ticked |
| StatusEffects.ScrubUpToNeverCorrupts | src/logic/systems.ts:152-166 | scrubbing never raises a tile's corruption or progress, keeps them at least 0, and keeps its kind |
| StatusEffects.ScrubStepFrame | src/logic/systems.ts:149-167 | one channel changes at most its own target tile, and that one only downwards |
| StatusEffects.RalliedTowns | src/logic/systems.ts:173-176 | every town stays with its integrity; its `rallied` flag is set, and is true exactly when the town has a rally aura with ticks left (`hasActiveRally`, src/logic/systems.ts:1792-1795) |
| StatusEffects.StatusTablesWithin | src/logic/systems.ts:128-180 | tables that keep their keys keep the store attached to live entities |
| StatusEffects.TickRallyAuras | src/logic/systems.ts:129-146 | only the aura table changes, and to the ticked auras |
| StatusEffects.TickCleanseChannels | src/logic/systems.ts:148-173 | the channels tick and the grid is the one the channels scrubbed, in id order |
| StatusEffects.SyncRallied | src/logic/systems.ts:176-178 | each town is rallied exactly when its aura has active time left |
| StatusEffects.StatusEffectSystem | src/logic/systems.ts:128-180 | auras and channels tick, channels scrub their tiles, and each town's flag follows its freshly ticked aura |
| Shuffle.DrawnIndexCanEscape | src/logic/systems.ts:1935 | the all-ones generator state gives the unit value 1 and the partner index `i + 1` |
| Shuffle.AllOnesIsReachable | src/logic/systems.ts:1935 | a non-zero state steps to the all-ones state |
| Shuffle.DrawnIndexInRange | src/logic/systems.ts:1935 | a unit value below 1 gives a partner in `[0, i]` |
| Shuffle.Clamp | src/logic/systems.ts:1935 | the floor of the draw, kept at most `i` |
| Shuffle.SwapIndex | src/logic/systems.ts:1935 | the partner lies in `[0, i]`, and equals the drawn index whenever the unit value is below 1 |
| Shuffle.Swap | src/logic/systems.ts:1936-1938 | the two entries trade places and the contents stay the same multiset |
| Shuffle.ShuffleInPlace | src/logic/systems.ts:1933-1940 | each partner is the corrected `Shuffle.SwapIndex`; the array ends a permutation of what it held, and the generator has stepped once per position from the last down to the second |
| Towns.InsideOnly | src/logic/systems.ts:1658-1665 | the candidate spots that lie inside the grid, in order, and no others |
| Towns.NeighborTiles | src/logic/systems.ts:1650-1667 | at most four spots, and a spot is listed exactly when it is inside the grid and one step from (x, y) |
| Towns.FindTownAt | src/logic/systems.ts:1733-1740 | the least-id town standing on the tile, none when no town stands there |
| Towns.FirstContactable | src/logic/systems.ts:953-971 | the first spot of the list that is a town tile with a town on it, none exactly when no spot is |
| Towns.ContactIsClose | src/logic/systems.ts:951-971 | the town a monster attacks stands on its own tile or one step away |
| Towns.Contacted | src/logic/systems.ts:984-985 | progress grows by the rate and stops at 1, corruption is raised to at least the progress, and the kind and flags are kept |
| Towns.TownsHitEffect | src/logic/systems.ts:983-988 | the town survives exactly when its integrity stays above 0, then holding `integrity - damage`; no other town changes, and none is added |
| Towns.TownHitWithin | src/logic/systems.ts:983-988 | a hit adds no component, so the store still belongs to the live entities |
| Towns.FindContactTarget | src/logic/systems.ts:953-971 | the first contactable spot of the list together with the town found on it, none exactly when no spot is contactable |
| Towns.StrikeTown | src/logic/systems.ts:982-991 | the tile joins the set under attack, the tile's progress and corruption grow, the town loses the attack damage, and the doom clocks pay the town-damage penalty |
| Towns.HandleTownContact | src/logic/systems.ts:950-992 | no town on the tile or a neighbouring one: nothing changes; otherwise the first one found, on the monster's own tile before its neighbours, is struck as above |
| DarkLord.TownCorrupted | src/logic/systems.ts:1851-1855 | a town overrun at once: full progress, marked corrupted and no longer corrupting, corruption at least 1 but within the cap, and never lowered |
| DarkLord.Grown | src/logic/systems.ts:1867-1872 | corruption grows by the increment up to the cap, progress follows it up to 1, the tile is corrupting, and it counts as corrupted exactly from 0.999 on |
| DarkLord.GrownAtCapStays | src/logic/systems.ts:1869 | a tile at the cap stays at the cap |
| DarkLord.Indices | src/logic/systems.ts:1842 | the indices `0 .. n-1` in order |
| DarkLord.PermutedIndices | src/logic/systems.ts:1842-1843 | a shuffled index list holds every tile index and only tile indices |
| DarkLord.FirstWanted | src/logic/systems.ts:1845-1851 | the first index in the shuffled order whose tile is wanted, none exactly when no tile in the order is |
| DarkLord.WithTile | src/logic/systems.ts:1851-1872 | the grid keeps its shape |
| DarkLord.TryCorruptTile | src/logic/systems.ts:1840-1874 | the generator steps once per index after the first; it fails exactly when no tile can take corruption, and then the grid is unchanged; a success changes the grid by `CorruptStep`: with an uncorrupted town, one such town is overrun; with none, one candidate tile grows |
| DarkLord.RowPairs | src/logic/systems.ts:1885-1888 | two cells per column of the range |
| DarkLord.ColumnPairs | src/logic/systems.ts:1889-1892 | two cells per row of the range |
| DarkLord.RowPairsOnBorder | src/logic/systems.ts:1885-1888 | every cell of the top and bottom rows lies on the inset border |
| DarkLord.ColumnPairsOnBorder | src/logic/systems.ts:1889-1892 | every cell of the side columns lies on the inset border |
| DarkLord.EdgeRingOnBorder | src/logic/systems.ts:1880-1895 | once the inset box exists the candidate list is never empty and every candidate lies on the box's border, and so on the grid |
| DarkLord.BuildEdgeRing | src/logic/systems.ts:1884-1892 | the two loops build the top and bottom rows, then the side columns |
| DarkLord.GreedyProperties | src/logic/systems.ts:1904-1916 | at most the wave size of cells, each a candidate, each on a tile free at the start, no two on the same tile |
| DarkLord.GreedyNonEmpty | src/logic/systems.ts:1904-1917 | a monster spawns exactly when the wave has room and some candidate is free |
| DarkLord.WaveRoomAnyOrder | src/logic/systems.ts:1897-1917 | whatever order the shuffle leaves, the wave is non-empty exactly when it has room |
| DarkLord.Spawns | src/logic/systems.ts:1913 | one monster of the wave's kind per chosen cell, in order |
| DarkLord.GreedyStep | src/logic/systems.ts:1909-1915 | an occupied candidate is skipped; a free one is taken and its tile becomes occupied |
| DarkLord.ChooseFreeCells | src/logic/systems.ts:1899-1916 | the cells the spawning loop fills, chosen in order against the occupancy taken before the loop |
| DarkLord.TrySpawnWave | src/logic/systems.ts:1876-1918 | the generator steps `WaveDraws` times: none without room for the inset box, where nothing is spawned, else once per edge cell after the first; otherwise some shuffle of the edge cells is walked, and the monsters spawned are exactly the greedy choice from it, on the next consecutive ids, which are the only new entities; it succeeds exactly when the wave has room |
| DarkLord.ShuffledRing | src/logic/systems.ts:1884-1897 | the result is a permutation of the edge cells of the inset box, and the generator steps once per cell after the first |
| DarkLord.ActionCooldownTicks | src/logic/systems.ts:1925-1931 | 0 for a cooldown of 0 seconds or less; otherwise the rounded tick count, never below 0 |
| DarkLord.Paid | src/logic/systems.ts:1822-1823 | the cost is debited, the action's cooldown restarts, and the counter and the other cooldowns are kept |
| DarkLord.PaidNeverOverdraws | src/logic/systems.ts:1815-1823 | a ready action never leaves the store below 0, and a non-negative cost never raises it |
| DarkLord.DecisionPriority | src/logic/systems.ts:1809-1837 | a wave is sent only when corrupting is impossible and the wave has room; what fires was ready; when nothing fires, neither action was both ready and possible |
| DarkLord.Charged | src/logic/systems.ts:1822-1834 | the store pays for the action, and the doom clocks lose its penalty when positive and stay at least 0 |
| DarkLord.SpawnAllKeepsDarkAndDoom | src/ecs/world.ts:259-276 | spawning monsters leaves the energy stores and the doom clocks alone |
| DarkLord.PayForAction | src/logic/systems.ts:1822-1834 | the store pays for the action and the doom clocks pay its penalty |
| DarkLord.CorruptAndPay | src/logic/systems.ts:1821-1828 | succeeds exactly when a tile can take corruption, and only then pays; the generator steps once per shuffle swap of the tile list, success or not; a failure changes neither the grid nor the store |
| DarkLord.SpawnAndPay | src/logic/systems.ts:1829-1836 | succeeds exactly when the wave has room; the generator steps as `TrySpawnWave` draws, success or not; a success spawns the wave on the next consecutive ids and pays; a failure changes neither the store nor the entities |
| DarkLord.ExecuteDarkLordAction | src/logic/systems.ts:1804-1838 | without an energy store nothing happens; otherwise the world moves by `ActionEffect` for the first store: the action `Decision` picks fires and is paid for, a corruption changes the grid by `CorruptStep`, a wave spawns its monsters on the next consecutive ids, and the generator has stepped `ActionDraws` times, failed attempts included; nothing else changes the grid, the entities or the store |
| DarkLord.ActWith | src/logic/systems.ts:1809-1837 | for a found store `k`, the world moves by `ActionEffect` and the only new entities are the wave's consecutive ids |
| DarkLord.WaveStage | src/logic/systems.ts:1829-1837 | after no corruption, the world moves by `ActionEffect`: a wave when the store is ready and it has room, else nothing but the draws |
| DarkLord.SpawnStage | src/logic/systems.ts:1829-1836 | for a store ready for a wave, the world moves by `ActionEffect`, the wave firing exactly when it has room |
| DarkLord.CorruptFired | src/logic/systems.ts:1821-1828 | a ready store with a tile to corrupt fires the corruption, and the draws are those of the tile shuffle alone |
| DarkLord.SpawnAttempted | src/logic/systems.ts:1829-1837 | without a corruption, a store ready for a wave fires it exactly when it has room, and the draws add the edge-cell shuffle to any failed tile shuffle |
| DarkLord.NothingFired | src/logic/systems.ts:1809-1838 | with neither action both ready and possible, nothing fires and only the generator moves |
| DarkLord.CountCorrupted | src/logic/systems.ts:1001 | a count of the corrupted tiles, at most the number of tiles |
| DarkLord.CountCorruptedExtremes | src/logic/systems.ts:1001 | the count is 0 exactly when no tile is corrupted and all tiles exactly when every one is |
| DarkLord.GainGrowsWithCorruption | src/logic/systems.ts:1000-1004 | with non-negative rates, more corrupted tiles never give less energy per tick |
| DarkLord.TickDown | src/logic/systems.ts:1007-1011 | a running cooldown loses one tick; a spent one stays as it is |
| DarkLord.NextCount | src/logic/systems.ts:1013-1015 | the counter grows by one and is reset to 0 once it reaches the cadence |
| DarkLord.Recharged | src/logic/systems.ts:1005-1015 | the store gains the energy, every cooldown ticks down and the counter advances |
| DarkLord.CooldownRunsOut | src/logic/systems.ts:1007-1011 | a cooldown of `t` ticks has run out after `t` ticks and stays out |
| DarkLord.CadenceCycle | src/logic/systems.ts:1013-1016 | from a fresh counter the Dark Lord acts every `cadence` ticks |
| DarkLord.CountAfterLast | src/logic/systems.ts:1013-1015 | one more tick advances the counter once more |
| DarkLord.DarkLordSystem | src/logic/systems.ts:994-1018 | without an energy store nothing happens; otherwise the first store is recharged (energy gained, cooldowns ticked down, counter advanced or reset at the cadence); below the cadence nothing else changes, the generator included; at the cadence the world then moves by `ActionEffect` from the recharged store: the decision, its payment and penalty, the grid change, the spawned wave and the draws |

## Left out

- Drawing, DOM, React and Pixi code, the animation-frame loop, timers, `fetch` of the balance file and `localStorage` saves are not modelled. The balance configuration is a read-only parameter (`Ecs.Balance`).
- `Lcg.Rng.constructor` needs an explicit seed. The `Date.now()` default seed of `src/core/rng.ts` is a clock read and is not modelled.
- Floating point: JavaScript doubles are exact reals. No claim is made about IEEE rounding, or about the epsilon thresholds of corruption and doom.
- Durations that the source converts from seconds to ticks with `Math.round` are given as integers already rounded. These are the `Ecs.Balance` fields ending in `Ticks` or `Rounded`.
- Randomness: the crit roll and the shuffles draw from the world generator (`Ecs.World.rng`), as in the source. The contracts state how many numbers each operation draws (`XorShift.Iterate`, `DarkLord.ActionDraws`), but a shuffle's result is stated only as some permutation of its input, not as the permutation the draws select. The spawn-kind and roam rolls belong to systems that are not modelled (below).
- `inputIntentSystem`, `triggerRally`, `triggerCleanse` and `findClosestTown` are not modelled. The systems model the state that rallies and cleanses leave behind (auras and channels).
- `villageSystem`, `villagerAiSystem`, `monsterAiSystem` (apart from `findNearestVillagerWithinRadius`), `corruptionSystem`, `spawningSystem` and `renderSyncSystem` are not modelled. They move units along paths and roll spawn kinds and roam targets, all driven by the generator.
- `militiaAiSystem`, `handleMilitiaEngage` and `computeMilitiaReturnPath` are not modelled. Only the patrol and return handlers and `computePath` are.
- The villager panic methods (`consumePanicStamina`, `enterPanic`, `stopPanic`, `startResting`) have no bodies in the source, so they are not modelled.
- Missing action configurations: the source reads `actions[key]` and skips an action whose entry is missing. In the model, the balance always has both actions (`corruptTileAction`, `spawnWaveAction`), so that branch does not exist.
- DarkLord.TrySpawnWave: the cells are chosen first, in one loop, and the monsters are spawned afterwards, in a second loop. The source spawns inside the choosing loop. The occupancy it tests is a snapshot taken before the loop, so the chosen cells and the spawned monsters are the same.
- Militia.ComputePath: requires both ends inside the grid. Every caller passes the unit's own tile and a route point, which lie in the grid.
- Militia.MilitiaState.HandlePatrol: requires the route points to be in the grid and the patrol index to be non-negative. The handlers only ever set the index to `(i + 1) % length`, which is never negative.
- Pathfinding.FindPath: requires the start and the goal to be inside the grid. Every caller passes tile positions of the grid. The same holds for `Pathfinding.FindPathBfs`.
- Pathfinding.FindPath: A* is proved to return a valid path exactly when one exists, but not a shortest one.
- Events.EventDispatcher.Dispatch: each listener is modelled only by the fact that it is called, in snapshot order. A listener body's own effects on the dispatcher are not captured. The stated final registry, `OffOnces` of the old one, therefore assumes no listener calls `on`, `off` or `clear`. The source copies the bucket before the loop so that listeners may do so.
- Villages.Village.Tick: the spawner callback is modelled only by its result (`spawnResult`, a villager or null). Its effects on the village are not captured. A spawner that registers the new villager through `EntityManager.registerVillager` raises the population in the middle of the tick. `TickSpec` and `Villages.TickKeepsInvariant` describe the tick's own code, as if the callback left the village alone.
- Ecs.CreateWorld: states the counter and every component table afterwards, but not the exact entity set. It states only that every live id lies below the counter.

## Findings

| source | as written | input that shows it | evidently intended | confidence | as-written member | corrected member |
|---|---|---|---|---|---|---|
| src/logic/systems.ts:1933-1940 | `shuffleInPlace` picks the partner `floor(rng.range(0, i + 1))`. When `next()` returns exactly 1.0 this is `i + 1`: one past the last slot of the unshuffled prefix, and past the array's end at the first swap. | a generator whose state steps to `0xffffffff`, e.g. from state `0x5e6cfce7`, drawing for the last index `i` | a partner index in `[0, i]` | not executed | `Shuffle.DrawnIndexCanEscape` | `Shuffle.SwapIndex` |
