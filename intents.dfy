/**
 * The player-intent buffer of src/logic/intents.ts.
 *
 * Input handlers append clicks and ability requests between ticks; the
 * input system of each tick drains both queues exactly once.
 */
module Intents {

  datatype ClickIntent = ClickIntent(tileX: int, tileY: int)

  datatype AbilityKind = Rally | Cleanse

  datatype AbilityIntent = AbilityIntent(kind: AbilityKind, tileX: int, tileY: int)

  /** What `consumeIntents` hands to the tick: copies of both queues. */
  datatype Payload = Payload(clicks: seq<ClickIntent>, abilities: seq<AbilityIntent>)

  class IntentState {
    var clicks: seq<ClickIntent>
    var abilities: seq<AbilityIntent>
    var consumedThisTick: bool

    /** `createIntentState`: both queues empty, nothing consumed yet. */
    constructor ()
      ensures clicks == [] && abilities == []
      ensures !consumedThisTick
    {
      clicks := [];
      abilities := [];
      consumedThisTick := false;
    }

    /** `queueClick`: the click goes to the back of the queue. */
    method QueueClick(intent: ClickIntent)
      modifies this`clicks
      ensures clicks == old(clicks) + [intent]
    {
      clicks := clicks + [intent];
    }

    /** `queueAbility`: the request goes to the back of the queue. */
    method QueueAbility(intent: AbilityIntent)
      modifies this`abilities
      ensures abilities == old(abilities) + [intent]
    {
      abilities := abilities + [intent];
    }

    /** `beginTick`: clears the consumed flag and leaves both queues alone. */
    method BeginTick()
      modifies this`consumedThisTick
      ensures !consumedThisTick
    {
      consumedThisTick := false;
    }

    /**
     * `consumeIntents`: returns everything queued, in arrival order, and
     * empties both queues, so a second call before any new queueing
     * returns nothing.
     */
    method ConsumeIntents() returns (payload: Payload)
      modifies this
      ensures payload == Payload(old(clicks), old(abilities))
      ensures clicks == [] && abilities == []
      ensures consumedThisTick
    {
      consumedThisTick := true;
      payload := Payload(clicks, abilities);
      clicks := [];
      abilities := [];
    }
  }

  /**
   * Two drains with no queueing in between: the first returns every pending
   * intent, in order, and the second returns empty lists.
   */
  method ConsumeTwice(s: IntentState) returns (first: Payload, second: Payload)
    modifies s
    ensures first == Payload(old(s.clicks), old(s.abilities))
    ensures second == Payload([], [])
    ensures s.clicks == [] && s.abilities == [] && s.consumedThisTick
  {
    first := s.ConsumeIntents();
    second := s.ConsumeIntents();
  }
}
