/** What happens when a pass of the CheckSuite reconciler fails before it commits and is
    replayed from fresh reads: exactly when the outcome is as if it had not failed. */
module SuiteReplay {
  import opened Types
  import opened CronScan
  import opened Names
  import opened SuiteController
  import opened SuitePass
  import opened MinuteSuites

  /** Two stores agree on the runs and on what the suite remembers of past triggers and
      ticks; the list of active references may differ. */
  ghost predicate SameResult(a: Store, b: Store) {
    && a.runs == b.runs && a.suite.spec == b.suite.spec && a.suite.version == b.suite.version
    && a.suite.status.lastScheduleTime == b.suite.status.lastScheduleTime
    && a.suite.status.lastManualTrigger == b.suite.status.lastManualTrigger
    && a.suite.status.scheduleValid == b.suite.status.scheduleValid
  }

  lemma SameStatus(hash: string -> string, s: Suite, a: seq<string>, b: seq<string>, now: int)
    ensures var x, y := StatusAfter(hash, s, a, now), StatusAfter(hash, s, b, now);
      x.lastScheduleTime == y.lastScheduleTime && x.lastManualTrigger == y.lastManualTrigger && x.scheduleValid == y.scheduleValid
  {
    hide Decide;
    DecisionReadsActive(s, a, b, now);
  }

  // --------------------------------------------------------------- the setting

  function ManualRun(hash: string -> string, s: Suite): string {
    ManualName(hash, s.spec.name, s.spec.runNow)
  }

  function TickRun(hash: string -> string, s: Suite, tick: int): string {
    TickName(hash, s.spec.name, tick)
  }

  /** Where the pass stood after its first `k` writes. */
  function Stopped(hash: string -> string, st: Store, active: seq<string>, k: nat): Store
    requires k <= |LaterOps(hash, st.suite, active, st.clock)|
  {
    ExecAll(st, LaterOps(hash, st.suite, active, st.clock)[..k])
  }

  function Concluded(hash: string -> string, st: Store, active: seq<string>, suite: Suite, now: int): Store {
    ExecAll(st, LaterOps(hash, suite, active, now))
  }

  /** Stopped after `k` writes and replayed over the listing `again`, the pass ends where
      it would have ended. */
  ghost predicate AgreesAt(hash: string -> string, st: Store, active: seq<string>, k: nat, again: seq<string>)
    requires k <= |LaterOps(hash, st.suite, active, st.clock)|
  {
    SameResult(Concluded(hash, Stopped(hash, st, active, k), again, st.suite, st.clock), Concluded(hash, st, active, st.suite, st.clock))
  }

  /** Wherever the pass stops before its commit. */
  ghost predicate ReplaysAgree(hash: string -> string, st: Store, active: seq<string>) {
    forall k: nat, again ::
      k < |LaterOps(hash, st.suite, active, st.clock)| && ActiveIn(Stopped(hash, st, active, k).runs, again) ==>
        AgreesAt(hash, st, active, k, again)
  }

  /** A trigger and a tick are both due, and one of the two runs can get lost: under
      Forbid when neither exists and they have different names, under Replace unless a
      finished or foreign run already has the manual run's name. */
  predicate TriggerMeetsTick(hash: string -> string, st: Store, active: seq<string>) {
    var s, d := st.suite, Decide(st.suite, active, st.clock);
    && ManualDue(s) && d.Fire?
    && match s.spec.policy
       case Allow => false
       case Forbid =>
         && ManualRun(hash, s) !in st.runs && TickRun(hash, s, d.tick) !in st.runs
         && ManualRun(hash, s) != TickRun(hash, s, d.tick)
       case Replace => ManualRun(hash, s) !in st.runs || ManualRun(hash, s) in active
  }

  /** The trigger changes nothing any more: it is not due, or its run's name is taken by a
      run the pass leaves alone. */
  predicate Settled(hash: string -> string, st: Store, active: seq<string>) {
    !ManualDue(st.suite) || (ManualRun(hash, st.suite) in st.runs && ManualRun(hash, st.suite) !in active)
  }

  /** Replaying after some of the active runs were already deleted. */
  lemma ReplayAfterDeletes(runs: map<string, Run>, active: seq<string>, k: nat, again: seq<string>)
    requires k <= |active| && ActiveIn(runs, active) && ActiveIn(runs - AsSet(active[..k]), again)
    ensures runs - AsSet(active[..k]) - AsSet(again) == runs - AsSet(active)
  {
    var mid := runs - AsSet(active[..k]);
    assert forall n :: n in again ==> n in active;
    assert forall n :: n in active && n !in active[..k] ==> n in OfKind(mid, IsActive);
    assert forall n :: n in active[..k] ==> n in active;
    assert AsSet(active[..k]) + AsSet(again) == AsSet(active);
    assert runs - (AsSet(active[..k]) + AsSet(again)) == mid - AsSet(again);
  }

  /** Replaying a fired tick whose run exists by now creates no second one. */
  lemma ReplayAfterCreate(runs: map<string, Run>, s: Suite, active: seq<string>, name: string, run: Run, again: seq<string>)
    requires ActiveIn(runs, active) && Belongs(Listed(name, run), IsActive)
    requires ActiveIn(WithRun(AfterReplace(runs, s, AsSet(active)), name, run), again)
    ensures var mid := WithRun(AfterReplace(runs, s, AsSet(active)), name, run);
      && name in mid
      && WithRun(AfterReplace(mid, s, AsSet(again)), name, run) == mid
  {
    var base := AfterReplace(runs, s, AsSet(active));
    var mid := WithRun(base, name, run);
    if s.spec.policy == Replace {
      assert OfKind(base, IsActive) == {};
      if name in base {
        assert AsSet(again) == {};
        assert mid - AsSet(again) == mid;
      } else {
        assert OfKind(mid, IsActive) <= {name};
        assert name in OfKind(mid, IsActive);
        assert AsSet(again) == {name};
        assert mid - {name} == base;
      }
    }
  }

  lemma TickOpsLeaveSuite(hash: string -> string, st: Store, s: Suite, active: seq<string>, now: int)
    ensures ExecAll(st, TickOps(hash, s, active, now)).suite == st.suite
    ensures ExecAll(st, TickOps(hash, s, active, now)).clock == st.clock
  {
    hide ExecAll, Decide, TickName;
    RunWritesLeaveSuite(st, TickOps(hash, s, active, now));
  }

  lemma AllowPrefixes(hash: string -> string, st: Store, active: seq<string>, k: nat)
    requires st.suite.spec.policy == Allow && k < |LaterOps(hash, st.suite, active, st.clock)|
    ensures var mid := Stopped(hash, st, active, k);
      && mid.suite == st.suite && mid.clock == st.clock
      && (mid.runs == st.runs || mid.runs == AfterManual(hash, st, st.suite)
          || mid.runs == AfterPass(hash, st, st.suite, AsSet(active), Decide(st.suite, active, st.clock), st.clock))
  {
    hide ExecAll, Decide, TickName, ManualName, AsSet, AfterManual, WithRun;
    var s, now := st.suite, st.clock;
    var m, t := ManualOps(hash, s), TickOps(hash, s, active, now);
    assert LaterOps(hash, s, active, now)[..k] == (m + t)[..k];
    LaterOpsLeaveSuite(hash, st, s, active, now, k);
    ManualOutcome(hash, st, s);
    TickOutcome(hash, ExecAll(st, m), s, active, now);
    ExecSplit(st, m, t);
    NoOps(st);
    if k == |m| + |t| {
      assert (m + t)[..k] == m + t;
    } else if k == |m| {
      assert (m + t)[..k] == m;
    } else {
      assert (m + t)[..k] == [];
    }
  }

  // ------------------------------------------------ with the trigger settled

  lemma NotStarted(hash: string -> string, st: Store, active: seq<string>)
    ensures Stopped(hash, st, active, 0) == st
  {
    NoOps(st);
  }

  /** Past the manual run, the pass is somewhere among the writes of the tick. */
  lemma StoppedInTick(hash: string -> string, st: Store, active: seq<string>, k: nat) returns (j: nat)
    requires k < |LaterOps(hash, st.suite, active, st.clock)| && k >= |ManualOps(hash, st.suite)|
    ensures j <= |TickOps(hash, st.suite, active, st.clock)| && j == k - |ManualOps(hash, st.suite)|
    ensures Stopped(hash, st, active, k)
      == ExecAll(st.(runs := AfterManual(hash, st, st.suite)), TickOps(hash, st.suite, active, st.clock)[..j])
  {
    hide ExecAll, AfterManual, Decide, TickName, ManualName;
    var m, t := ManualOps(hash, st.suite), TickOps(hash, st.suite, active, st.clock);
    j := k - |m|;
    assert LaterOps(hash, st.suite, active, st.clock)[..k] == m + t[..j];
    ExecSplit(st, m, t[..j]);
    ManualOutcome(hash, st, st.suite);
  }

  lemma SettledManual(hash: string -> string, st: Store, active: seq<string>)
    requires Settled(hash, st, active)
    ensures AfterManual(hash, st, st.suite) == st.runs
  {
    hide ManualName;
  }

  lemma SettledStops(hash: string -> string, st: Store, active: seq<string>, k: nat) returns (j: nat)
    requires Settled(hash, st, active) && k < |LaterOps(hash, st.suite, active, st.clock)|
    ensures j <= |TickOps(hash, st.suite, active, st.clock)|
    ensures Stopped(hash, st, active, k) == ExecAll(st, TickOps(hash, st.suite, active, st.clock)[..j])
  {
    hide Settled, AfterManual, TickOps, Stopped, LaterOps;
    SettledManual(hash, st, active);
    if k < |ManualOps(hash, st.suite)| {
      j := 0;
      assert k == 0;
      NotStarted(hash, st, active);
      assert TickOps(hash, st.suite, active, st.clock)[..0] == [];
      NoOps(st);
    } else {
      j := StoppedInTick(hash, st, active, k);
    }
  }

  /** Where a pass can stop among the writes of its tick. */
  lemma PrefixOfTick(hash: string -> string, st: Store, s: Suite, active: seq<string>, now: int, j: nat)
    requires j < |TickOps(hash, s, active, now)|
    ensures Decide(s, active, now).Fire?
    ensures var mid := ExecAll(st, TickOps(hash, s, active, now)[..j]);
      if s.spec.policy == Replace then j <= |active| && mid == st.(runs := st.runs - AsSet(active[..j])) else mid == st
  {
    hide ExecAll, Decide, TickName;
    if s.spec.policy == Replace {
      assert TickOps(hash, s, active, now)[..j] == Deletes(active[..j]);
      DeletesEffect(st, active[..j]);
    } else {
      NoOps(st);
    }
  }

  lemma ReplayDeleted(hash: string -> string, st: Store, active: seq<string>, j: nat, again: seq<string>)
    requires j <= |active| && st.suite.spec.policy == Replace && Settled(hash, st, active)
    requires ActiveIn(st.runs, active) && ActiveIn(st.runs - AsSet(active[..j]), again)
    requires Decide(st.suite, active, st.clock).Fire?
    ensures var mid := st.(runs := st.runs - AsSet(active[..j]));
      SameResult(Concluded(hash, mid, again, st.suite, st.clock), Concluded(hash, st, active, st.suite, st.clock))
  {
    hide Decide, StatusAfter, LaterOps, ExecAll, ActiveIn, TickName, ManualName;
    var mid := st.(runs := st.runs - AsSet(active[..j]));
    PassOutcome(hash, st, st.suite, active, st.clock);
    PassOutcome(hash, mid, st.suite, again, st.clock);
    SameStatus(hash, st.suite, again, active, st.clock);
    DecisionReadsActive(st.suite, again, active, st.clock);
    ReplayAfterDeletes(st.runs, active, j, again);
    SettledManual(hash, st, active);
    SettledManual(hash, mid, active) by { assert Settled(hash, mid, active) by { SettledLater(hash, st, active, j); } }
  }

  lemma SettledLater(hash: string -> string, st: Store, active: seq<string>, j: nat)
    requires j <= |active| && Settled(hash, st, active)
    ensures Settled(hash, st.(runs := st.runs - AsSet(active[..j])), active)
  {
    hide ManualName;
  }

  lemma SettledFired(hash: string -> string, st: Store, active: seq<string>)
    requires Settled(hash, st, active)
    ensures var mid := ExecAll(st, TickOps(hash, st.suite, active, st.clock));
      mid.suite == st.suite && mid.clock == st.clock && AfterManual(hash, mid, st.suite) == mid.runs
  {
    hide ExecAll, TickOps, ManualName, TickName, Decide;
    TickOutcome(hash, st, st.suite, active, st.clock);
    TickOpsLeaveSuite(hash, st, st.suite, active, st.clock);
  }

  lemma ReplayFired(hash: string -> string, st: Store, active: seq<string>, again: seq<string>)
    requires Settled(hash, st, active) && Decide(st.suite, active, st.clock).Fire?
    requires ActiveIn(st.runs, active) && ActiveIn(ExecAll(st, TickOps(hash, st.suite, active, st.clock)).runs, again)
    ensures var mid := ExecAll(st, TickOps(hash, st.suite, active, st.clock));
      SameResult(Concluded(hash, mid, again, st.suite, st.clock), Concluded(hash, st, active, st.suite, st.clock))
  {
    hide Decide, StatusAfter, LaterOps, ExecAll, ActiveIn, AsSet, TickName, TickOps, AfterReplace, WithRun, Settled, AfterManual;
    var s, now := st.suite, st.clock;
    var d := Decide(s, active, now);
    var mid := ExecAll(st, TickOps(hash, s, active, now));
    SettledManual(hash, st, active);
    SettledFired(hash, st, active);
    TickOutcome(hash, st, s, active, now);
    PassOutcome(hash, st, s, active, now);
    PassOutcome(hash, mid, s, again, now);
    SameStatus(hash, s, again, active, now);
    DecisionReadsActive(s, again, active, now);
    ReplayAfterCreate(st.runs, s, active, TickName(hash, s.spec.name, d.tick),
                      NewRun(st.clock, Scheduled(d.tick, now), s.spec.template), again);
  }

  /** With nothing left to do for the trigger, a replay agrees under every policy. */
  lemma SettledReplays(hash: string -> string, st: Store, active: seq<string>, k: nat, again: seq<string>)
    requires Settled(hash, st, active) && ActiveIn(st.runs, active)
    requires k < |LaterOps(hash, st.suite, active, st.clock)| && ActiveIn(Stopped(hash, st, active, k).runs, again)
    ensures AgreesAt(hash, st, active, k, again)
  {
    hide ExecAll, Decide, SameResult, ActiveIn, Settled, LaterOps, TickOps, Stopped, Concluded;
    var ticks := TickOps(hash, st.suite, active, st.clock);
    var j := SettledStops(hash, st, active, k);
    assert ExecAll(st, ticks[..j]) == Stopped(hash, st, active, k);
    if j < |ticks| {
      PrefixOfTick(hash, st, st.suite, active, st.clock, j);
      if st.suite.spec.policy == Replace {
        ReplayDeleted(hash, st, active, j, again);
      } else {
        ReplayRestarted(hash, st, active, again);
      }
    } else {
      assert ticks[..j] == ticks;
      if Decide(st.suite, active, st.clock).Fire? {
        ReplayFired(hash, st, active, again);
      } else {
        NoTickOps(hash, st, active);
        ReplayRestarted(hash, st, active, again);
      }
    }
  }

  lemma ReplayRestarted(hash: string -> string, st: Store, active: seq<string>, again: seq<string>)
    requires ActiveIn(st.runs, active) && ActiveIn(st.runs, again)
    ensures SameResult(Concluded(hash, st, again, st.suite, st.clock), Concluded(hash, st, active, st.suite, st.clock))
  {
    hide Decide, StatusAfter, LaterOps, ExecAll, AfterPass;
    PassOutcome(hash, st, st.suite, active, st.clock);
    PassOutcome(hash, st, st.suite, again, st.clock);
    SameStatus(hash, st.suite, again, active, st.clock);
    assert AsSet(again) == AsSet(active);
    assert again == [] <==> active == [] by {
      if |again| > 0 { assert again[0] in active; }
      if |active| > 0 { assert active[0] in again; }
    }
    DecisionReadsActive(st.suite, again, active, st.clock);
  }

  lemma NoTickOps(hash: string -> string, st: Store, active: seq<string>)
    requires !Decide(st.suite, active, st.clock).Fire?
    ensures TickOps(hash, st.suite, active, st.clock) == []
    ensures ExecAll(st, TickOps(hash, st.suite, active, st.clock)) == st
  {
    NoOps(st);
  }

  // ------------------------------------------------------ with the trigger due

  /** After the manual run, what was active still is. */
  lemma ManualKeepsActive(hash: string -> string, st: Store)
    ensures OfKind(st.runs, IsActive) <= OfKind(AfterManual(hash, st, st.suite), IsActive)
  {
    hide ManualName;
  }

  lemma StillNotFired(hash: string -> string, s: Suite, active: seq<string>, again: seq<string>, now: int)
    requires !Decide(s, active, now).Fire? && (active != [] ==> again != [])
    ensures !Decide(s, again, now).Fire?
  {
    hide ScanOf;
  }

  /** A pass that fires no tick only has its manual run to create. */
  lemma UnfiredReplays(hash: string -> string, st: Store, active: seq<string>, k: nat, again: seq<string>)
    requires ManualDue(st.suite) && !Decide(st.suite, active, st.clock).Fire? && ActiveIn(st.runs, active)
    requires k < |LaterOps(hash, st.suite, active, st.clock)| && ActiveIn(Stopped(hash, st, active, k).runs, again)
    ensures AgreesAt(hash, st, active, k, again)
  {
    hide ExecAll, Decide, StatusAfter, LaterOps, ManualName, TickName, OfKind, Stopped;
    var mid := Stopped(hash, st, active, k);
    NotStarted(hash, st, active);
    NoTickOps(hash, st, active);
    if k > 0 {
      var j := StoppedInTick(hash, st, active, k);
      assert TickOps(hash, st.suite, active, st.clock)[..j] == [];
      NoOps(st.(runs := AfterManual(hash, st, st.suite)));
    }
    ManualKeepsActive(hash, st);
    assert active != [] ==> active[0] in again;
    StillNotFired(hash, st.suite, active, again, st.clock);
    PassOutcome(hash, st, st.suite, active, st.clock);
    PassOutcome(hash, mid, st.suite, again, st.clock);
    SameStatus(hash, st.suite, again, active, st.clock);
  }

  /** Under Forbid a pass that fires has at most its two runs to create. */
  lemma ForbidStops(hash: string -> string, st: Store, active: seq<string>, k: nat)
    requires st.suite.spec.policy == Forbid && ManualDue(st.suite) && Decide(st.suite, active, st.clock).Fire?
    requires k < |LaterOps(hash, st.suite, active, st.clock)|
    ensures var s, d := st.suite, Decide(st.suite, active, st.clock); var mid := Stopped(hash, st, active, k);
      var manual := AfterManual(hash, st, s);
      && mid.suite == s && mid.clock == st.clock && |LaterOps(hash, s, active, st.clock)| == 3
      && mid.runs == if k == 0 then st.runs else if k == 1 then manual else
           WithRun(manual, TickRun(hash, s, d.tick), NewRun(st.clock, Scheduled(d.tick, st.clock), s.spec.template))
  {
    hide ExecAll, Decide, ManualName, TickName, StatusAfter, AfterManual, Stopped;
    NotStarted(hash, st, active);
    if k > 0 {
      var j := StoppedInTick(hash, st, active, k);
      var mid := st.(runs := AfterManual(hash, st, st.suite));
      var t := TickOps(hash, st.suite, active, st.clock);
      if j == 0 {
        assert t[..0] == [];
        NoOps(mid);
      } else {
        var tick := Decide(st.suite, active, st.clock).tick;
        var op := CreateRun(TickName(hash, st.suite.spec.name, tick), Scheduled(tick, st.clock), st.suite.spec.template);
        assert t == [op] && t[..j] == [op];
        ExecOne(mid, op);
        assert ExecAll(mid, [op]).runs == WithRun(mid.runs, op.name, NewRun(st.clock, op.origin, op.template));
      }
    }
  }

  lemma ForbidReplays(hash: string -> string, st: Store, active: seq<string>, k: nat, again: seq<string>)
    requires st.suite.spec.policy == Forbid && ManualDue(st.suite) && Decide(st.suite, active, st.clock).Fire?
    requires ActiveIn(st.runs, active) && !TriggerMeetsTick(hash, st, active)
    requires k < |LaterOps(hash, st.suite, active, st.clock)| && ActiveIn(Stopped(hash, st, active, k).runs, again)
    ensures AgreesAt(hash, st, active, k, again)
  {
    hide ExecAll, StatusAfter, LaterOps, ManualName, TickName, ScanOf, Stopped;
    var mid := Stopped(hash, st, active, k);
    ForbidStops(hash, st, active, k);
    if k == 0 || (k == 1 && ManualRun(hash, st.suite) in st.runs) {
      ReplayRestarted(hash, st, active, again);
    } else {
      PassOutcome(hash, st, st.suite, active, st.clock);
      PassOutcome(hash, mid, st.suite, again, st.clock);
      SameStatus(hash, st.suite, again, active, st.clock);
      DecisionReadsActive(st.suite, again, active, st.clock);
    }
  }

  /** Under Forbid a replay that finds the manual run active records the tick without
      ever running it. */
  lemma ForbidLosesTick(hash: string -> string, st: Store, active: seq<string>)
    requires st.suite.spec.policy == Forbid && TriggerMeetsTick(hash, st, active) && ActiveIn(st.runs, active)
    ensures 1 < |LaterOps(hash, st.suite, active, st.clock)|
    ensures var s := st.suite; var mid, again := Stopped(hash, st, active, 1), [ManualRun(hash, s)];
      var once, twice := Concluded(hash, st, active, s, st.clock), Concluded(hash, mid, again, s, st.clock);
      var name := TickRun(hash, s, Decide(s, active, st.clock).tick);
      && ActiveIn(mid.runs, again) && name in once.runs && name !in twice.runs
      && once.suite.status.lastScheduleTime == twice.suite.status.lastScheduleTime
      && !AgreesAt(hash, st, active, 1, again)
  {
    hide ExecAll, StatusAfter, LaterOps, ManualName, TickName, ScanOf, Stopped;
    StoppedAfterManual(hash, st, active);
    ForbidStops(hash, st, active, 1);
    var mid, again := Stopped(hash, st, active, 1), [ManualRun(hash, st.suite)];
    assert active == [];
    assert OfKind(st.runs, IsActive) == {};
    assert ActiveIn(mid.runs, again);
    PassOutcome(hash, st, st.suite, active, st.clock);
    PassOutcome(hash, mid, st.suite, again, st.clock);
    SameStatus(hash, st.suite, again, active, st.clock);
    assert Decide(st.suite, again, st.clock).Skip?;
  }

  /** Under Replace a replay finds the manual run it has just created among the active
      ones, deletes it, and commits its trigger as handled. */
  lemma ReplaceLosesNewManual(hash: string -> string, st: Store, active: seq<string>)
    requires st.suite.spec.policy == Replace && ManualDue(st.suite) && Decide(st.suite, active, st.clock).Fire?
    requires ManualRun(hash, st.suite) !in st.runs && ActiveIn(st.runs, active)
    ensures 1 < |LaterOps(hash, st.suite, active, st.clock)|
    ensures var s := st.suite; var name := ManualRun(hash, s);
      var mid, again := Stopped(hash, st, active, 1), active + [name];
      var once, twice := Concluded(hash, st, active, s, st.clock), Concluded(hash, mid, again, s, st.clock);
      && ActiveIn(mid.runs, again)
      && name in once.runs && once.runs[name].origin == Manual(s.spec.runNow)
      && (name !in twice.runs || twice.runs[name].origin.Scheduled?)
      && twice.suite.status.lastManualTrigger == s.spec.runNow
      && !AgreesAt(hash, st, active, 1, again)
  {
    hide ExecAll, LaterOps, ManualName, TickName, Decide, Stopped;
    StoppedAfterManual(hash, st, active);
    var mid, again := Stopped(hash, st, active, 1), active + [ManualRun(hash, st.suite)];
    assert ActiveIn(mid.runs, again);
    assert ManualRun(hash, st.suite) !in active;
    PassOutcome(hash, st, st.suite, active, st.clock);
    PassOutcome(hash, mid, st.suite, again, st.clock);
    DecisionReadsActive(st.suite, again, active, st.clock);
  }

  lemma StoppedAfterManual(hash: string -> string, st: Store, active: seq<string>)
    requires ManualDue(st.suite)
    ensures |LaterOps(hash, st.suite, active, st.clock)| > 1
    ensures Stopped(hash, st, active, 1) == st.(runs := AfterManual(hash, st, st.suite))
  {
    hide ExecAll, AfterManual, Decide, TickName, ManualName;
    ManualOutcome(hash, st, st.suite);
    assert LaterOps(hash, st.suite, active, st.clock)[..1] == ManualOps(hash, st.suite);
  }

  /** Under Replace a pass that finds the manual run active already deletes it; stopped
      right after its deletes and replayed, it creates the manual run a second time. */
  lemma ReplaceRevivesManual(hash: string -> string, st: Store, active: seq<string>)
    requires st.suite.spec.policy == Replace && ManualDue(st.suite) && Decide(st.suite, active, st.clock).Fire?
    requires ManualRun(hash, st.suite) in active && ActiveIn(st.runs, active)
    ensures 1 + |active| < |LaterOps(hash, st.suite, active, st.clock)|
    ensures var s := st.suite; var name, mid := ManualRun(hash, s), Stopped(hash, st, active, 1 + |active|);
      var once, twice := Concluded(hash, st, active, s, st.clock), Concluded(hash, mid, [], s, st.clock);
      && ActiveIn(mid.runs, [])
      && (name !in once.runs || once.runs[name].origin.Scheduled?)
      && name in twice.runs && twice.runs[name].origin == Manual(s.spec.runNow)
      && !AgreesAt(hash, st, active, 1 + |active|, [])
  {
    hide ExecAll, LaterOps, ManualName, TickName, Decide, Stopped;
    DeletedAll(hash, st, active);
    var mid := Stopped(hash, st, active, 1 + |active|);
    assert OfKind(mid.runs, IsActive) == {};
    PassOutcome(hash, st, st.suite, active, st.clock);
    PassOutcome(hash, mid, st.suite, [], st.clock);
    DecisionReadsActive(st.suite, [], active, st.clock);
  }

  lemma DeletedAll(hash: string -> string, st: Store, active: seq<string>)
    requires st.suite.spec.policy == Replace && ManualDue(st.suite) && Decide(st.suite, active, st.clock).Fire?
    requires ManualRun(hash, st.suite) in st.runs
    ensures 1 + |active| < |LaterOps(hash, st.suite, active, st.clock)|
    ensures Stopped(hash, st, active, 1 + |active|) == st.(runs := st.runs - AsSet(active))
  {
    hide ExecAll, ManualName, TickName, Decide, Stopped, StatusAfter;
    var j := StoppedInTick(hash, st, active, 1 + |active|);
    PrefixOfTick(hash, st, st.suite, active, st.clock, j);
    assert active[..|active|] == active;
  }

  // ------------------------------------------------------------- the theorem

  /** Every replay of a pass at the same instant ends where the pass would have ended,
      exactly when no due trigger meets a firing tick in the way described above. When the
      two runs have one name, Forbid agrees, and Replace attributes the one run
      differently. */
  lemma ReplaysAgreeExactly(hash: string -> string, st: Store, active: seq<string>)
    requires ActiveIn(st.runs, active)
    ensures ReplaysAgree(hash, st, active) <==> !TriggerMeetsTick(hash, st, active)
  {
    hide AgreesAt, LaterOps, Decide, Stopped, ActiveIn;
    if TriggerMeetsTick(hash, st, active) {
      LosingReplay(hash, st, active);
    } else {
      forall k: nat, again | k < |LaterOps(hash, st.suite, active, st.clock)| && ActiveIn(Stopped(hash, st, active, k).runs, again)
        ensures AgreesAt(hash, st, active, k, again)
      {
        AgreeingReplay(hash, st, active, k, again);
      }
    }
  }

  lemma LosingReplay(hash: string -> string, st: Store, active: seq<string>)
    requires ActiveIn(st.runs, active) && TriggerMeetsTick(hash, st, active)
    ensures !ReplaysAgree(hash, st, active)
  {
    hide AgreesAt, LaterOps, Decide, Stopped, ActiveIn, Concluded, ManualName, TickName;
    if st.suite.spec.policy == Forbid {
      ForbidLosesTick(hash, st, active);
    } else if ManualRun(hash, st.suite) !in st.runs {
      ReplaceLosesNewManual(hash, st, active);
    } else {
      ReplaceRevivesManual(hash, st, active);
    }
  }

  lemma AgreeingReplay(hash: string -> string, st: Store, active: seq<string>, k: nat, again: seq<string>)
    requires ActiveIn(st.runs, active) && !TriggerMeetsTick(hash, st, active)
    requires k < |LaterOps(hash, st.suite, active, st.clock)| && ActiveIn(Stopped(hash, st, active, k).runs, again)
    ensures AgreesAt(hash, st, active, k, again)
  {
    hide AgreesAt, LaterOps, Decide, Stopped, ActiveIn, ManualName, TickName;
    if Settled(hash, st, active) {
      SettledReplays(hash, st, active, k, again);
    } else if !Decide(st.suite, active, st.clock).Fire? {
      UnfiredReplays(hash, st, active, k, again);
    } else if st.suite.spec.policy == Forbid {
      ForbidReplays(hash, st, active, k, again);
    } else {
      AllowReplays(hash, st, active, k, again);
    }
  }

  lemma AllowReplays(hash: string -> string, st: Store, active: seq<string>, k: nat, again: seq<string>)
    requires st.suite.spec.policy == Allow && k < |LaterOps(hash, st.suite, active, st.clock)|
    ensures AgreesAt(hash, st, active, k, again)
  {
    hide ExecAll, Decide, StatusAfter, LaterOps, TickName, ManualName, AsSet, Stopped;
    var mid := Stopped(hash, st, active, k);
    AllowPrefixes(hash, st, active, k);
    PassOutcome(hash, st, st.suite, active, st.clock);
    PassOutcome(hash, mid, st.suite, again, st.clock);
    SameStatus(hash, st.suite, again, active, st.clock);
    DecisionReadsActive(st.suite, again, active, st.clock);
  }

  /** The setting does occur: one minute after its creation, a suite that runs every
      minute finds a run-now trigger and its first tick due. */
  lemma TriggerDoesMeetTick(hash: string -> string, policy: Policy)
    requires IsHash(hash) && policy != Allow
    ensures var st := Store(MINUTE, MinuteSuite(policy, "now", None, 0, [], None), map[]);
      && ActiveIn(st.runs, []) && TriggerMeetsTick(hash, st, []) && !ReplaysAgree(hash, st, [])
  {
    hide TickName, ManualName, Decide, ReplaysAgree;
    var st := Store(MINUTE, MinuteSuite(policy, "now", None, 0, [], None), map[]);
    MinuteFires(st.suite, 0);
    ManualIsNotMinute(hash, "now");
    ReplaysAgreeExactly(hash, st, []);
  }
}
