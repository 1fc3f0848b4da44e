/**
 * The villager/village bookkeeping of src/logic/simulation/EntityManager.ts.
 *
 * Three maps: the registered villages, each villager's home village, and
 * a villager count per village. Registering or removing a villager keeps
 * the count and the home village's population in step.
 */
module VillageRegistry {
  import opened Wrappers
  import opened Villages

  /** `villageVillagerCounts.get(id) ?? 0`. */
  function CountOf(counts: map<int, int>, villageId: int): int
  {
    if villageId in counts then counts[villageId] else 0
  }

  /** The counts after one more villager joins a village. */
  function Bump(counts: map<int, int>, villageId: int): (r: map<int, int>)
    ensures CountOf(r, villageId) == CountOf(counts, villageId) + 1
    ensures forall v :: v != villageId ==> CountOf(r, v) == CountOf(counts, v)
  {
    counts[villageId := CountOf(counts, villageId) + 1]
  }

  /** The counts after a villager leaves a village: one fewer, never below 0. */
  function Drop(counts: map<int, int>, villageId: int): (r: map<int, int>)
    ensures CountOf(r, villageId) == if CountOf(counts, villageId) - 1 > 0 then CountOf(counts, villageId) - 1 else 0
    ensures forall v :: v != villageId ==> CountOf(r, v) == CountOf(counts, v)
  {
    var current := CountOf(counts, villageId);
    counts[villageId := if current - 1 > 0 then current - 1 else 0]
  }

  /** Removing a villager undoes registering it, as far as every village's count goes. */
  lemma DropUndoesBump(counts: map<int, int>, villageId: int)
    requires 0 <= CountOf(counts, villageId)
    ensures forall v :: CountOf(Drop(Bump(counts, villageId), villageId), v) == CountOf(counts, v)
  {
  }

  class EntityManager {
    var villages: map<int, Village>
    var villagerToVillage: map<int, int>
    var villageVillagerCounts: map<int, int>

    /** A new manager knows nothing. */
    constructor ()
      ensures villages == map[] && villagerToVillage == map[] && villageVillagerCounts == map[]
    {
      villages := map[];
      villagerToVillage := map[];
      villageVillagerCounts := map[];
    }

    /** `registerVillage`: stores the village and starts its count at its population. */
    method RegisterVillage(entityId: int, village: Village)
      modifies this`villages, this`villageVillagerCounts
      ensures villages == old(villages)[entityId := village]
      ensures villageVillagerCounts == old(villageVillagerCounts)[entityId := village.population]
    {
      villages := villages[entityId := village];
      villageVillagerCounts := villageVillagerCounts[entityId := village.population];
    }

    /**
     * `registerVillager`: records the home village, adds one to its count
     * (from 0 when it had none) and, when the village is registered, adds
     * one to its population, capped at its capacity.
     */
    method RegisterVillager(entityId: int, villageId: int)
      modifies this`villagerToVillage, this`villageVillagerCounts
      modifies (if villageId in villages then {villages[villageId]} else {})`population
      ensures villagerToVillage == old(villagerToVillage)[entityId := villageId]
      ensures villageVillagerCounts == Bump(old(villageVillagerCounts), villageId)
      ensures villageId in villages ==>
        var v := villages[villageId];
        v.population == if old(v.population) + 1 < v.config.capacity then old(v.population) + 1 else v.config.capacity
    {
      villagerToVillage := villagerToVillage[entityId := villageId];
      var current := CountOf(villageVillagerCounts, villageId);
      villageVillagerCounts := villageVillagerCounts[villageId := current + 1];
      if villageId in villages {
        var village := villages[villageId];
        village.IncrementPopulation();
      }
    }

    /** `getVillage`. */
    function GetVillage(entityId: int): (r: Option<Village>)
      reads this
      ensures r.Some? <==> entityId in villages
      ensures r.Some? ==> r.value == villages[entityId]
    {
      if entityId in villages then Some(villages[entityId]) else None
    }

    /** `getVillagerCount`: 0 for a village with no count. */
    function GetVillagerCount(villageId: int): (r: int)
      reads this
      ensures villageId !in villageVillagerCounts ==> r == 0
      ensures villageId in villageVillagerCounts ==> r == villageVillagerCounts[villageId]
    {
      CountOf(villageVillagerCounts, villageId)
    }

    /** `getHomeVillage`. */
    function GetHomeVillage(villagerId: int): (r: Option<int>)
      reads this
      ensures r.Some? <==> villagerId in villagerToVillage
      ensures r.Some? ==> r.value == villagerToVillage[villagerId]
    {
      if villagerId in villagerToVillage then Some(villagerToVillage[villagerId]) else None
    }

    /**
     * `removeEntity`. A registered villager loses its home, its village's
     * count drops by one with a floor of 0, and a registered home village
     * loses one inhabitant. Otherwise a registered village is dropped with
     * its count, keeping the homes of its villagers. Any other id changes
     * nothing.
     */
    method RemoveEntity(entityId: int)
      modifies this
      modifies (if entityId in villagerToVillage && villagerToVillage[entityId] in villages
        then {villages[villagerToVillage[entityId]]} else {})`population
      ensures old(entityId in villagerToVillage) ==>
        var home := old(villagerToVillage[entityId]);
        villagerToVillage == old(villagerToVillage) - {entityId} &&
        villageVillagerCounts == Drop(old(villageVillagerCounts), home) &&
        villages == old(villages) &&
        (home in villages ==>
          villages[home].population == if old(villages[home].population) - 1 > 0 then old(villages[home].population) - 1 else 0)
      ensures old(entityId !in villagerToVillage && entityId in villages) ==>
        villages == old(villages) - {entityId} &&
        villageVillagerCounts == old(villageVillagerCounts) - {entityId} &&
        villagerToVillage == old(villagerToVillage)
      ensures old(entityId !in villagerToVillage && entityId !in villages) ==>
        villages == old(villages) &&
        villageVillagerCounts == old(villageVillagerCounts) &&
        villagerToVillage == old(villagerToVillage)
    {
      if entityId in villagerToVillage {
        var villageId := villagerToVillage[entityId];
        villagerToVillage := villagerToVillage - {entityId};
        var current := CountOf(villageVillagerCounts, villageId);
        villageVillagerCounts := villageVillagerCounts[villageId := if current - 1 > 0 then current - 1 else 0];
        if villageId in villages {
          var village := villages[villageId];
          village.DecrementPopulation();
        }
        return;
      }
      if entityId in villages {
        villages := villages - {entityId};
        villageVillagerCounts := villageVillagerCounts - {entityId};
      }
    }

    /** `clear`: all three maps emptied. */
    method Clear()
      modifies this
      ensures villages == map[] && villagerToVillage == map[] && villageVillagerCounts == map[]
    {
      villages := map[];
      villageVillagerCounts := map[];
      villagerToVillage := map[];
    }
  }
}
