/**
 * `findNearestVillagerWithinRadius` of src/logic/systems.ts: the villager
 * a monster goes after, chosen by Manhattan distance with ties broken
 * towards the smaller id.
 */
module MonsterSearch {
  import opened Wrappers
  import opened Numbers
  import opened Ecs

  /** The Manhattan distance from (x, y) to a transform. */
  function Distance(t: Transform, x: int, y: int): nat
  {
    Abs(t.tileX - x) + Abs(t.tileY - y)
  }

  /** `e` is a villager within `radius` of (x, y). */
  predicate InReach(villagers: map<Entity, Transform>, x: int, y: int, radius: int, e: Entity)
  {
    e in villagers && Distance(villagers[e], x, y) <= radius
  }

  /** `e` comes before `o`: strictly nearer, or as near with a smaller id. */
  predicate Before(villagers: map<Entity, Transform>, x: int, y: int, e: Entity, o: Entity)
    requires e in villagers && o in villagers
  {
    var de := Distance(villagers[e], x, y);
    var do := Distance(villagers[o], x, y);
    de < do || (de == do && e <= o)
  }

  /**
   * `r` is the answer: none when no villager is in reach, otherwise one in
   * reach that comes before every other in reach.
   */
  ghost predicate IsNearest(villagers: map<Entity, Transform>, x: int, y: int, radius: int, r: Option<Entity>)
  {
    match r
    case None => forall e :: e in villagers ==> !InReach(villagers, x, y, radius, e)
    case Some(e) =>
      InReach(villagers, x, y, radius, e) &&
      forall o :: InReach(villagers, x, y, radius, o) ==> Before(villagers, x, y, e, o)
  }

  /**
   * The answer is determined by the map alone, so the order in which the
   * map is walked does not matter.
   */
  lemma NearestIsUnique(villagers: map<Entity, Transform>, x: int, y: int, radius: int, r1: Option<Entity>, r2: Option<Entity>)
    requires IsNearest(villagers, x, y, radius, r1) && IsNearest(villagers, x, y, radius, r2)
    ensures r1 == r2
  {
    if r1.Some? && r2.Some? {
      assert Before(villagers, x, y, r1.value, r2.value);
      assert Before(villagers, x, y, r2.value, r1.value);
    }
  }

  /**
   * `findNearestVillagerWithinRadius`: none exactly when no villager is
   * within the radius; otherwise the nearest, the smallest id among equals.
   */
  method FindNearestVillagerWithinRadius(fromX: int, fromY: int, radius: int, villagers: map<Entity, Transform>)
    returns (best: Option<Entity>)
    ensures IsNearest(villagers, fromX, fromY, radius, best)
    ensures best.None? <==> forall e :: e in villagers ==> !InReach(villagers, fromX, fromY, radius, e)
  {
    best := None;
    var bestDist := radius + 1;
    var rest := villagers.Keys;
    while rest != {}
      invariant rest <= villagers.Keys
      invariant best.None? ==> bestDist == radius + 1
      invariant best.None? ==> forall e :: e in villagers && e !in rest ==> !InReach(villagers, fromX, fromY, radius, e)
      invariant best.Some? ==> InReach(villagers, fromX, fromY, radius, best.value) && best.value !in rest
      invariant best.Some? ==> bestDist == Distance(villagers[best.value], fromX, fromY)
      invariant best.Some? ==> forall o :: o !in rest && InReach(villagers, fromX, fromY, radius, o) ==>
                                   Before(villagers, fromX, fromY, best.value, o)
      decreases |rest|
    {
      if forall j :: j !in rest {
        assert false;
      }
      var e :| e in rest;
      var dist := Distance(villagers[e], fromX, fromY);
      if dist <= radius {
        if dist < bestDist || (dist == bestDist && (best.None? || e < best.value)) {
          bestDist := dist;
          best := Some(e);
        }
      }
      rest := rest - {e};
    }
  }
}
