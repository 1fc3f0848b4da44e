/**
 * The self-check latch of src/utils/checks.ts.
 *
 * Each named check starts `unknown`; a pass report latches it to `pass`
 * unless it has already been decided, and a fail report latches it to
 * `fail` from any state. Every report that changes a status logs one line.
 * The console is modelled as the sequence of lines logged so far.
 */
module Checks {
  import opened Wrappers

  datatype CheckKey = EdgeSpawn | MonsterPathTown | MonsterDamageTown | EndlessWaves | HudDisplays

  datatype CheckStatus = Unknown | Pass | Fail

  datatype Level = PassLevel | FailLevel

  datatype LogLine = LogLine(level: Level, message: string)

  /** The fixed label of each check. */
  function Label(key: CheckKey): string
  {
    match key
    case EdgeSpawn => "Waves spawn only on edges"
    case MonsterPathTown => "Monsters path to the nearest town"
    case MonsterDamageTown => "Monsters damage and destroy towns"
    case EndlessWaves => "Waves are endless"
    case HudDisplays => "HUD shows Towns Alive and Next Wave In"
  }

  const Separator: string := " — "

  /**
   * The logged message: the label alone, or the label, an em dash and the
   * detail. An absent detail and an empty one are both falsy in
   * JavaScript, so both give the label alone.
   */
  function Message(key: CheckKey, detail: Option<string>): (m: string)
    ensures detail.None? || detail.value == [] ==> m == Label(key)
    ensures detail.Some? && detail.value != [] ==>
      |m| == |Label(key)| + |Separator| + |detail.value| &&
      m[..|Label(key)|] == Label(key) &&
      m[|Label(key)|..|Label(key)| + |Separator|] == Separator &&
      m[|Label(key)| + |Separator|..] == detail.value
  {
    if detail.Some? && detail.value != [] then Label(key) + Separator + detail.value else Label(key)
  }

  /** The status a pass report leaves: only an undecided check changes. */
  function AfterPass(s: CheckStatus): CheckStatus
  {
    if s == Unknown then Pass else s
  }

  /** The status a fail report leaves: always `fail`. */
  function AfterFail(s: CheckStatus): CheckStatus
  {
    Fail
  }

  datatype Report = ReportPass | ReportFail

  /** The status of one check after a series of reports, applied in order. */
  function Run(s: CheckStatus, reports: seq<Report>): CheckStatus
    decreases |reports|
  {
    if reports == [] then s
    else Run(if reports[0] == ReportPass then AfterPass(s) else AfterFail(s), reports[1..])
  }

  /** `fail` is absorbing: no series of later reports changes a failed check. */
  lemma {:induction false} FailIsAbsorbing(reports: seq<Report>)
    ensures Run(Fail, reports) == Fail
    decreases |reports|
  {
    if reports != [] {
      FailIsAbsorbing(reports[1..]);
    }
  }

  /** A check ends `fail` exactly when it started failed or some report was a failure. */
  lemma {:induction false} EndsFailedIff(s: CheckStatus, reports: seq<Report>)
    ensures Run(s, reports) == Fail <==> s == Fail || ReportFail in reports
    decreases |reports|
  {
    if reports != [] {
      var s' := if reports[0] == ReportPass then AfterPass(s) else AfterFail(s);
      EndsFailedIff(s', reports[1..]);
      assert reports == [reports[0]] + reports[1..];
    }
  }

  /**
   * A check ends `pass` exactly when no failure was ever reported and it
   * either started passed or some pass report arrived.
   */
  lemma {:induction false} EndsPassedIff(s: CheckStatus, reports: seq<Report>)
    ensures Run(s, reports) == Pass <==>
      s != Fail && ReportFail !in reports && (s == Pass || ReportPass in reports)
    decreases |reports|
  {
    if reports != [] {
      var s' := if reports[0] == ReportPass then AfterPass(s) else AfterFail(s);
      EndsPassedIff(s', reports[1..]);
      if reports[0] == ReportFail {
        FailIsAbsorbing(reports[1..]);
      }
      assert reports == [reports[0]] + reports[1..];
    }
  }

  /** The module-level `checkState` record together with the console it writes to. */
  class CheckRegistry {
    var state: map<CheckKey, CheckStatus>
    var log: seq<LogLine>

    /** Every key has a status. */
    ghost predicate Valid()
      reads this
    {
      forall k: CheckKey :: k in state
    }

    /** The initial record: every check `unknown`, nothing logged. */
    constructor ()
      ensures Valid()
      ensures forall k: CheckKey :: state[k] == Unknown
      ensures log == []
    {
      var initial := map[EdgeSpawn := Unknown, MonsterPathTown := Unknown, MonsterDamageTown := Unknown,
                         EndlessWaves := Unknown, HudDisplays := Unknown];
      forall k: CheckKey
        ensures k in initial
      {
        match k
        case EdgeSpawn =>
        case MonsterPathTown =>
        case MonsterDamageTown =>
        case EndlessWaves =>
        case HudDisplays =>
      }
      state := initial;
      log := [];
    }

    /** `reportCheckPass`: latches an undecided check to `pass` and logs it; otherwise a no-op. */
    method ReportCheckPass(key: CheckKey, detail: Option<string>)
      requires Valid()
      modifies this
      ensures Valid()
      ensures state == old(state)[key := AfterPass(old(state)[key])]
      ensures log == old(log) + (if old(state)[key] == Unknown then [LogLine(PassLevel, Message(key, detail))] else [])
    {
      if state[key] == Fail || state[key] == Pass {
        return;
      }
      log := log + [LogLine(PassLevel, Message(key, detail))];
      state := state[key := Pass];
    }

    /** `reportCheckFail`: latches any check that has not failed yet to `fail` and logs it. */
    method ReportCheckFail(key: CheckKey, detail: Option<string>)
      requires Valid()
      modifies this
      ensures Valid()
      ensures state == old(state)[key := AfterFail(old(state)[key])]
      ensures log == old(log) + (if old(state)[key] != Fail then [LogLine(FailLevel, Message(key, detail))] else [])
    {
      if state[key] == Fail {
        return;
      }
      log := log + [LogLine(FailLevel, Message(key, detail))];
      state := state[key := Fail];
    }
  }
}
