/**
 * The system pipeline of src/logic/systems.ts: the fifteen systems one
 * tick runs, in order.
 */
module Pipeline {

  datatype GameSystem =
    | TimeSystem | DoomClockSystem | InputIntentSystem | CombatResolutionSystem | StatusEffectSystem
    | VillageSystem | VillagerAiSystem | MilitiaAiSystem | MonsterAiSystem | DarkLordSystem
    | CorruptionSystem | SpawningSystem | EconomySystem | WinLossSystem | RenderSyncSystem

  /** Where a system sits in the tick. */
  function Rank(s: GameSystem): nat
  {
    match s
    case TimeSystem => 0
    case DoomClockSystem => 1
    case InputIntentSystem => 2
    case CombatResolutionSystem => 3
    case StatusEffectSystem => 4
    case VillageSystem => 5
    case VillagerAiSystem => 6
    case MilitiaAiSystem => 7
    case MonsterAiSystem => 8
    case DarkLordSystem => 9
    case CorruptionSystem => 10
    case SpawningSystem => 11
    case EconomySystem => 12
    case WinLossSystem => 13
    case RenderSyncSystem => 14
  }

  /**
   * `createSystemPipeline`: every system exactly once, each at its rank, so
   * the clock advances first, intents are consumed before clicks resolve,
   * the Dark Lord acts before waves spawn, the run is judged after the
   * economy clamp and the snapshot is taken last.
   */
  function CreateSystemPipeline(): (r: seq<GameSystem>)
    ensures |r| == 15
    ensures forall i :: 0 <= i < |r| ==> Rank(r[i]) == i
  {
    [TimeSystem, DoomClockSystem, InputIntentSystem, CombatResolutionSystem, StatusEffectSystem,
     VillageSystem, VillagerAiSystem, MilitiaAiSystem, MonsterAiSystem, DarkLordSystem,
     CorruptionSystem, SpawningSystem, EconomySystem, WinLossSystem, RenderSyncSystem]
  }

  /** Every system is in the pipeline, at its rank. */
  lemma PipelineRunsEverySystem(s: GameSystem)
    ensures Rank(s) < |CreateSystemPipeline()| && CreateSystemPipeline()[Rank(s)] == s
  {
  }

  /** No system runs twice in one tick. */
  lemma PipelineHasNoRepeats()
    ensures forall i, j :: 0 <= i < j < |CreateSystemPipeline()| ==> CreateSystemPipeline()[i] != CreateSystemPipeline()[j]
  {
    var r := CreateSystemPipeline();
    forall i, j | 0 <= i < j < |r|
      ensures r[i] != r[j]
    {
      assert Rank(r[i]) == i && Rank(r[j]) == j;
    }
  }
}

/**
 * The clock systems of src/logic/systems.ts: `timeSystem`,
 * `doomClockSystem` and `adjustDoomClock`.
 */
module TickSystems {
  import opened Numbers
  import opened Ecs

  // ---- Floating numbers ----

  /** A floating number one tick older. */
  function Aged(f: FloatingNumber): FloatingNumber
  {
    f.(lifeTicks := f.lifeTicks - 1)
  }

  /** The floating numbers still shown one tick later, aged, in their order. */
  function Survivors(s: seq<FloatingNumber>): seq<FloatingNumber>
  {
    if s == [] then []
    else (if s[0].lifeTicks - 1 > 0 then [Aged(s[0])] else []) + Survivors(s[1..])
  }

  /** Survivors of a concatenation are the survivors of each part, in order. */
  lemma {:induction false} SurvivorsAppend(a: seq<FloatingNumber>, b: seq<FloatingNumber>)
    ensures Survivors(a + b) == Survivors(a) + Survivors(b)
    decreases |a|
  {
    if a == [] {
      assert a + b == b;
    } else {
      assert (a + b)[0] == a[0];
      assert (a + b)[1..] == a[1..] + b;
      SurvivorsAppend(a[1..], b);
    }
  }

  /** Decay never adds entries, and whatever is still shown has a tick of life left and came from the old list. */
  lemma {:induction false} SurvivorsComeFromOld(s: seq<FloatingNumber>)
    ensures |Survivors(s)| <= |s|
    ensures forall f :: f in Survivors(s) ==> 1 <= f.lifeTicks && f.(lifeTicks := f.lifeTicks + 1) in s
    decreases |s|
  {
    if s != [] {
      SurvivorsComeFromOld(s[1..]);
      assert forall f :: f in s[1..] ==> f in s;
      assert s[0].(lifeTicks := s[0].lifeTicks - 1).(lifeTicks := s[0].lifeTicks) == s[0];
    }
  }

  /** Every entry with more than one tick of life left is still shown, one tick older. */
  lemma {:induction false} LongLivedSurvive(s: seq<FloatingNumber>, k: int)
    requires 0 <= k < |s| && s[k].lifeTicks > 1
    ensures Aged(s[k]) in Survivors(s)
    decreases |s|
  {
    if k > 0 {
      assert s[1..][k - 1] == s[k];
      LongLivedSurvive(s[1..], k - 1);
    }
  }

  /**
   * The backward loop of `timeSystem`: each floating number loses a tick
   * and is spliced out once it has none left.
   */
  method DecayFloatingNumbers(w: World)
    modifies w`floatingNumbers
    ensures w.floatingNumbers == Survivors(old(w.floatingNumbers))
  {
    ghost var orig := w.floatingNumbers;
    var i := |w.floatingNumbers|;
    while i > 0
      invariant 0 <= i <= |orig|
      invariant w.floatingNumbers == orig[..i] + Survivors(orig[i..])
    {
      i := i - 1;
      var fn := w.floatingNumbers[i];
      fn := fn.(lifeTicks := fn.lifeTicks - 1);
      assert orig[i..] == [orig[i]] + orig[i + 1..];
      SurvivorsAppend([orig[i]], orig[i + 1..]);
      assert orig[..i + 1] == orig[..i] + [orig[i]];
      if fn.lifeTicks <= 0 {
        w.floatingNumbers := w.floatingNumbers[..i] + w.floatingNumbers[i + 1..];
      } else {
        w.floatingNumbers := w.floatingNumbers[i := fn];
      }
    }
    assert orig[0..] == orig;
  }

  /**
   * `timeSystem`: the intent flag is reset, the tick's events are cleared,
   * the tick advances by one, the seconds follow the tick, and the
   * floating numbers decay.
   */
  method TimeSystem(w: World)
    requires w.balance.WellFormed()
    modifies w.intents`consumedThisTick, w`events, w`tick, w`seconds, w`floatingNumbers
    ensures !w.intents.consumedThisTick
    ensures w.events == []
    ensures w.tick == old(w.tick) + 1
    ensures w.seconds * w.balance.ticksPerSecond as real == w.tick as real
    ensures w.floatingNumbers == Survivors(old(w.floatingNumbers))
  {
    w.intents.BeginTick();
    w.events := [];
    w.tick := w.tick + 1;
    w.seconds := w.tick as real / w.balance.ticksPerSecond as real;
    DecayFloatingNumbers(w);
  }

  // ---- The doom clock ----

  /** The doom table after `adjustDoomClock(delta)`: unchanged for a zero delta, else every entry shifted and clamped at 0. */
  function ShiftDoom(m: map<Entity, real>, delta: real): (r: map<Entity, real>)
    ensures r.Keys == m.Keys
    ensures delta == 0.0 ==> r == m
    ensures delta != 0.0 ==> forall e :: e in r ==> 0.0 <= r[e]
    ensures forall e :: e in r && 0.0 <= m[e] ==> 0.0 <= r[e]
  {
    if delta == 0.0 then m
    else map e | e in m :: Max0Real(m[e] + delta)
  }

  /** The store with every doom clock shifted as `adjustDoomClock(delta)` leaves it. */
  function DoomShifted(c: Components, delta: real): Components
  {
    c.(doomClock := ShiftDoom(c.doomClock, delta))
  }

  /**
   * Two drains in a row clamp like one drain of their sum, so the order
   * and grouping of penalties within a tick do not matter.
   */
  lemma DrainsCompose(m: map<Entity, real>, a: real, b: real)
    requires a < 0.0 && b < 0.0
    ensures ShiftDoom(ShiftDoom(m, a), b) == ShiftDoom(m, a + b)
  {
    var once := ShiftDoom(m, a);
    forall e | e in m
      ensures ShiftDoom(once, b)[e] == ShiftDoom(m, a + b)[e]
    {
      assert once[e] == Max0Real(m[e] + a);
    }
  }

  /** A gain never lowers an entry, and a drain never raises one. */
  lemma ShiftMonotone(m: map<Entity, real>, delta: real, e: Entity)
    requires e in m && 0.0 <= m[e]
    ensures 0.0 <= delta ==> m[e] <= ShiftDoom(m, delta)[e]
    ensures delta <= 0.0 ==> ShiftDoom(m, delta)[e] <= m[e]
  {
  }

  /** Replacing the doom table by one with the same keys keeps every entity's component membership. */
  lemma SameKeysKeepWithin(c: Components, m: map<Entity, real>, s: set<Entity>)
    requires m.Keys == c.doomClock.Keys && c.Within(s)
    ensures c.(doomClock := m).Within(s)
  {
    var d := c.(doomClock := m);
    forall x | d.Has(x)
      ensures x in s
    {
      assert x in m ==> x in c.doomClock;
    }
  }

  /**
   * `adjustDoomClock`: a zero delta changes nothing; otherwise every doom
   * clock moves by delta and stops at 0. The table is visited in insertion
   * order, which is ascending id.
   */
  method AdjustDoomClock(w: World, delta: real)
    requires w.Valid()
    modifies w`components
    ensures w.Valid()
    ensures w.components == DoomShifted(old(w.components), delta)
  {
    if delta == 0.0 {
      assert w.components.(doomClock := w.components.doomClock) == w.components;
      return;
    }
    var m := w.components.doomClock;
    forall e | e in m
      ensures 1 <= e < w.nextEntityId
    {
      assert w.components.Has(e);
    }
    var out := m;
    for id := 1 to w.nextEntityId
      invariant out.Keys == m.Keys
      invariant forall e :: e in m ==> out[e] == if e < id then Max0Real(m[e] + delta) else m[e]
    {
      if id in out {
        out := out[id := Max0Real(out[id] + delta)];
      }
    }
    assert out == ShiftDoom(m, delta);
    SameKeysKeepWithin(w.components, out, w.entities);
    w.components := w.components.(doomClock := out);
  }

  /** `doomClockSystem`: a positive base drain takes one tick's worth of seconds from every doom clock. */
  method DoomClockSystem(w: World)
    requires w.Valid()
    modifies w`components
    ensures w.Valid()
    ensures w.balance.baseDrainPerSecond <= 0.0 ==> w.components == old(w.components)
    ensures 0.0 < w.balance.baseDrainPerSecond ==>
      w.components == DoomShifted(old(w.components), -w.balance.baseDrainPerSecond / w.balance.ticksPerSecond as real)
  {
    var drain := w.balance.baseDrainPerSecond;
    if drain <= 0.0 {
      return;
    }
    var secondsPerTick := 1.0 / w.balance.ticksPerSecond as real;
    assert -drain * secondsPerTick == -drain / w.balance.ticksPerSecond as real;
    AdjustDoomClock(w, -drain * secondsPerTick);
  }
}
