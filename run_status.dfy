/**
 * The end of a run, from src/logic/systems.ts: `finishRun`,
 * `winLossSystem`, and the non-negativity clamp of `economySystem`.
 *
 * A run starts `Running` and ends once, as won or lost; every later
 * attempt to finish it, and every later pass of the win/loss check,
 * leaves the recorded outcome alone.
 */
module RunStatus {
  import opened Wrappers
  import opened Numbers
  import opened Ecs
  import Villages
  import Combat

  /** One request to end the run, with the clock it is made at. */
  datatype Finish = Finish(status: RunStatus, reason: string, completed: Completion, seconds: real, tick: int)

  /** `finishRun`: a running run takes the outcome and the end time; an ended one is left as it is. */
  function Finished(r: RunState, f: Finish): (r': RunState)
    ensures r.status != Running ==> r' == r
    ensures r.status == Running ==>
      r'.status == f.status && r'.reason == f.reason && r'.completedCondition == Some(f.completed) &&
      r'.finalTimeSeconds == f.seconds && r'.endTick == f.tick
    ensures r'.populationEverPositive == r.populationEverPositive
  {
    if r.status != Running then r
    else r.(status := f.status, reason := f.reason, completedCondition := Some(f.completed),
            finalTimeSeconds := f.seconds, endTick := f.tick)
  }

  /** Several requests in a row. */
  function FinishAll(r: RunState, fs: seq<Finish>): RunState
    decreases |fs|
  {
    if fs == [] then r else FinishAll(Finished(r, fs[0]), fs[1..])
  }

  /** Once ended, no request changes the run. */
  lemma {:induction false} EndedStaysEnded(r: RunState, fs: seq<Finish>)
    requires r.status != Running
    ensures FinishAll(r, fs) == r
    decreases |fs|
  {
    if fs != [] {
      EndedStaysEnded(Finished(r, fs[0]), fs[1..]);
    }
  }

  /**
   * The run leaves `Running` at most once: of any series of requests to
   * win or lose, the first decides the outcome and the end time.
   */
  lemma FirstFinishWins(r: RunState, fs: seq<Finish>)
    requires r.status == Running && fs != []
    requires forall i :: 0 <= i < |fs| ==> fs[i].status != Running
    ensures FinishAll(r, fs) == Finished(r, fs[0])
  {
    EndedStaysEnded(Finished(r, fs[0]), fs[1..]);
  }

  /** `finishRun` on the world, at the current time. */
  method FinishRun(w: World, status: RunStatus, reason: string, completed: Completion)
    modifies w`runState
    ensures w.runState == Finished(old(w.runState), Finish(status, reason, completed, w.seconds, w.tick))
  {
    if w.runState.status != Running {
      return;
    }
    w.runState := w.runState.(status := status, reason := reason, completedCondition := Some(completed),
                              finalTimeSeconds := w.seconds, endTick := w.tick);
  }

  const ExtinctionReason := "All villagers were lost."
  const SurvivalReason := "You survived the required time."
  const ResourceReason := "You gathered enough resources."

  /**
   * The outcome `winLossSystem` reaches from the first village's
   * population, the clock and the resources gathered: extinction first,
   * then the survival goal, then the resource goal; goals of 0 are off.
   */
  function Verdict(ever: bool, firstPopulation: Option<int>, seconds: real, gathered: real, b: Balance): Option<(RunStatus, string, Completion)>
  {
    var surviveGoal := if b.surviveGoalSecondsRounded < 0 then 0 else b.surviveGoalSecondsRounded;
    var resourceGoal := Max0Real(b.resourceGoal);
    if firstPopulation.Some? && ever && firstPopulation.value <= 0 then Some((Lost, ExtinctionReason, Extinction))
    else if surviveGoal > 0 && seconds >= surviveGoal as real then Some((Won, SurvivalReason, Survival))
    else if resourceGoal > 0.0 && gathered >= resourceGoal then Some((Won, ResourceReason, Resource))
    else None
  }

  /**
   * Extinction outranks both wins: once a village that had people is
   * empty the run is lost, however long it lasted and however much was
   * gathered. A win needs a positive goal that was met.
   */
  lemma VerdictPriority(ever: bool, firstPopulation: Option<int>, seconds: real, gathered: real, b: Balance)
    ensures firstPopulation.Some? && ever && firstPopulation.value <= 0 ==>
      Verdict(ever, firstPopulation, seconds, gathered, b) == Some((Lost, ExtinctionReason, Extinction))
    ensures Verdict(ever, firstPopulation, seconds, gathered, b).Some? && Verdict(ever, firstPopulation, seconds, gathered, b).value.0 == Won ==>
      (0 < b.surviveGoalSecondsRounded && b.surviveGoalSecondsRounded as real <= seconds) ||
      (0.0 < b.resourceGoal && b.resourceGoal <= gathered)
    ensures Verdict(ever, firstPopulation, seconds, gathered, b).Some? ==> Verdict(ever, firstPopulation, seconds, gathered, b).value.0 != Running
  {
  }

  /** The least key of a set: the first village in insertion order, since ids only grow. */
  method LeastKey(s: set<Entity>) returns (r: Option<Entity>)
    ensures Combat.IsFirstKey(s, r)
  {
    var rest := s;
    r := None;
    while rest != {}
      invariant rest <= s
      invariant r.None? ==> rest == s
      invariant r.Some? ==> r.value in s && r.value !in rest && forall j :: j in s && j !in rest ==> r.value <= j
      decreases |rest|
    {
      if forall j :: j !in rest {
        assert false;
      }
      var x :| x in rest;
      if r.None? || x < r.value {
        r := Some(x);
      }
      rest := rest - {x};
    }
  }

  /** The first village's population, if there is a village. */
  method FirstPopulation(w: World) returns (p: Option<int>)
    ensures w.villages.Keys == {} ==> p == None
    ensures Combat.FirstKey(w.villages.Keys).Some? ==> p == Some(w.villages[Combat.FirstKey(w.villages.Keys).value].population)
  {
    var k := LeastKey(w.villages.Keys);
    Combat.FirstKeyUnique(w.villages.Keys, k, Combat.FirstKey(w.villages.Keys));
    if k.None? {
      return None;
    }
    return Some(w.villages[k.value].population);
  }

  /**
   * `winLossSystem`: an ended run is left alone; a running one ends with
   * the verdict for the first village, the clock and the gathered
   * resources, or keeps running when there is none.
   */
  method WinLossSystem(w: World)
    modifies w`runState
    ensures old(w.runState).status != Running ==> w.runState == old(w.runState)
    ensures var v := Verdict(old(w.runState).populationEverPositive,
                             if Combat.FirstKey(w.villages.Keys).None? then None
                             else Some(w.villages[Combat.FirstKey(w.villages.Keys).value].population),
                             w.seconds, w.resourcesGathered, w.balance);
      w.runState == if v.None? then old(w.runState)
                    else Finished(old(w.runState), Finish(v.value.0, v.value.1, v.value.2, w.seconds, w.tick))
  {
    if w.runState.status != Running {
      return;
    }
    var population := FirstPopulation(w);
    var v := Verdict(w.runState.populationEverPositive, population, w.seconds, w.resourcesGathered, w.balance);
    if v.Some? {
      FinishRun(w, v.value.0, v.value.1, v.value.2);
    }
  }

  /** `economySystem`: gold and shards are clamped at 0. */
  method EconomySystem(w: World)
    modifies w`economy
    ensures w.economy == Economy(Max0(old(w.economy.gold)), Max0(old(w.economy.shards)))
  {
    w.economy := Economy(Max0(w.economy.gold), Max0(w.economy.shards));
  }
}
