/**
 * The resource node of src/logic/simulation/ResourceTile.ts.
 *
 * A node holds a non-negative amount of one resource. Each gather tick
 * takes at most the node's per-tick yield, at most what the gatherer can
 * still carry and at most what is left; a node that runs dry becomes
 * `depleted` for good. Amounts are JavaScript numbers, modelled as exact
 * reals.
 */
module Resources {
  import opened Numbers

  datatype ResourceType = Wood | Food | Ore

  /** The per-unit effects a node's resource has on its village (stored, not used here). */
  datatype Effects = Effects(stockpilePerUnit: real, spawnIntervalBonusPerUnit: real, spawnCostReductionPerUnit: real)

  datatype NodeState = Available | Depleted

  datatype ResourceTileParams = ResourceTileParams(
    kind: ResourceType,
    totalAmount: real,
    gatherDurationTicks: int,
    yieldPerGather: real,
    effects: Effects)

  /**
   * `computeTickYield`: the yield of one gather spread over its duration, or
   * 0 when there is no yield.
   */
  function TickYield(yieldPerGather: real, gatherDurationTicks: int): (r: real)
    requires 1 <= gatherDurationTicks
    ensures 0.0 <= r
    ensures yieldPerGather <= 0.0 ==> r == 0.0
    ensures 0.0 < yieldPerGather ==> r * gatherDurationTicks as real == yieldPerGather && r <= yieldPerGather
  {
    if yieldPerGather <= 0.0 then 0.0
    else
      var raw := yieldPerGather / gatherDurationTicks as real;
      assert raw * gatherDurationTicks as real == yieldPerGather;
      MaxReal(0.0, raw)
  }

  /** The part of a node that gathering changes. */
  datatype Stock = Stock(state: NodeState, remaining: real)

  /** A stock is consistent when nothing is negative and it is depleted exactly when empty. */
  predicate Consistent(s: Stock)
  {
    0.0 <= s.remaining && (s.state == Depleted <==> s.remaining == 0.0)
  }

  /** The amount one `gatherTick(maxAmount)` takes from a stock. */
  function Taken(s: Stock, tickYield: real, maxAmount: real): real
  {
    if s.state == Depleted || maxAmount <= 0.0 then 0.0
    else MinReal(MinReal(tickYield, MaxReal(0.0, maxAmount)), s.remaining)
  }

  /** The stock after one `gatherTick(maxAmount)`. */
  function AfterGather(s: Stock, tickYield: real, maxAmount: real): Stock
  {
    if s.state == Depleted || maxAmount <= 0.0 then s
    else
      var left := MaxReal(0.0, s.remaining - Taken(s, tickYield, maxAmount));
      if left <= 0.0 then Stock(Depleted, 0.0) else Stock(Available, left)
  }

  /**
   * One gather takes nothing from a depleted node or for a non-positive
   * request; otherwise it takes no more than the yield, the request and
   * what is left, and exactly that much leaves the node.
   */
  lemma GatherBounds(s: Stock, tickYield: real, maxAmount: real)
    requires Consistent(s) && 0.0 <= tickYield
    ensures s.state == Depleted || maxAmount <= 0.0 ==>
      Taken(s, tickYield, maxAmount) == 0.0 && AfterGather(s, tickYield, maxAmount) == s
    ensures 0.0 <= Taken(s, tickYield, maxAmount)
    ensures Taken(s, tickYield, maxAmount) <= tickYield
    ensures Taken(s, tickYield, maxAmount) <= MaxReal(0.0, maxAmount)
    ensures Taken(s, tickYield, maxAmount) <= s.remaining
    ensures AfterGather(s, tickYield, maxAmount).remaining == s.remaining - Taken(s, tickYield, maxAmount)
    ensures Consistent(AfterGather(s, tickYield, maxAmount))
  {
  }

  /** A depleted node never becomes available again. */
  lemma DepletedIsAbsorbing(s: Stock, tickYield: real, maxAmount: real)
    requires s.state == Depleted
    ensures AfterGather(s, tickYield, maxAmount).state == Depleted
    ensures Taken(s, tickYield, maxAmount) == 0.0
  {
  }

  /** The stock after a series of gather ticks with the given requests. */
  function GatherAll(s: Stock, tickYield: real, requests: seq<real>): Stock
    decreases |requests|
  {
    if requests == [] then s
    else GatherAll(AfterGather(s, tickYield, requests[0]), tickYield, requests[1..])
  }

  /** The total taken by a series of gather ticks. */
  function TakenAll(s: Stock, tickYield: real, requests: seq<real>): real
    decreases |requests|
  {
    if requests == [] then 0.0
    else Taken(s, tickYield, requests[0]) + TakenAll(AfterGather(s, tickYield, requests[0]), tickYield, requests[1..])
  }

  /**
   * Conservation over any series of gathers: what was taken plus what is
   * left is what the node started with, the node stays consistent, and a
   * depleted node stays depleted.
   */
  lemma {:induction false} GatherConserves(s: Stock, tickYield: real, requests: seq<real>)
    requires Consistent(s) && 0.0 <= tickYield
    ensures Consistent(GatherAll(s, tickYield, requests))
    ensures TakenAll(s, tickYield, requests) + GatherAll(s, tickYield, requests).remaining == s.remaining
    ensures 0.0 <= TakenAll(s, tickYield, requests)
    ensures s.state == Depleted ==> GatherAll(s, tickYield, requests) == s
    decreases |requests|
  {
    if requests != [] {
      GatherBounds(s, tickYield, requests[0]);
      GatherConserves(AfterGather(s, tickYield, requests[0]), tickYield, requests[1..]);
    }
  }

  class ResourceTile {
    const kind: ResourceType
    const gatherDurationTicks: int
    const yieldPerGather: real
    const effects: Effects
    const tickYield: real

    var state: NodeState
    var remainingResource: real

    ghost predicate Valid()
      reads this
    {
      1 <= gatherDurationTicks && 0.0 <= yieldPerGather &&
      tickYield == TickYield(yieldPerGather, gatherDurationTicks) &&
      Consistent(Stock(state, remainingResource))
    }

    /**
     * Clamps the amount to at least 0, the duration to at least 1 and the
     * yield to at least 0; a node created empty starts depleted.
     */
    constructor (params: ResourceTileParams)
      ensures Valid()
      ensures kind == params.kind && effects == params.effects
      ensures remainingResource == MaxReal(0.0, params.totalAmount)
      ensures gatherDurationTicks == if params.gatherDurationTicks < 1 then 1 else params.gatherDurationTicks
      ensures yieldPerGather == MaxReal(0.0, params.yieldPerGather)
      ensures state == Depleted <==> remainingResource == 0.0
    {
      kind := params.kind;
      remainingResource := MaxReal(0.0, params.totalAmount);
      var duration := if params.gatherDurationTicks < 1 then 1 else params.gatherDurationTicks;
      gatherDurationTicks := duration;
      var y := MaxReal(0.0, params.yieldPerGather);
      yieldPerGather := y;
      effects := params.effects;
      tickYield := TickYield(y, duration);
      state := Available;
      new;
      if remainingResource <= 0.0 {
        state := Depleted;
      }
    }

    /** `gatherTick`: takes one tick's worth from the node and returns the amount. */
    method GatherTick(maxAmount: real) returns (amount: real)
      requires Valid()
      modifies this
      ensures Valid()
      ensures amount == Taken(old(Stock(state, remainingResource)), tickYield, maxAmount)
      ensures Stock(state, remainingResource) == AfterGather(old(Stock(state, remainingResource)), tickYield, maxAmount)
    {
      if state == Depleted || maxAmount <= 0.0 {
        return 0.0;
      }
      var allowed := MaxReal(0.0, maxAmount);
      amount := MinReal(MinReal(tickYield, allowed), remainingResource);
      remainingResource := MaxReal(0.0, remainingResource - amount);
      if remainingResource <= 0.0 {
        remainingResource := 0.0;
        state := Depleted;
      }
    }

    /** `isDepleted`. */
    function IsDepleted(): (r: bool)
      requires Valid()
      reads this
      ensures r <==> remainingResource == 0.0
    {
      state == Depleted
    }
  }
}
