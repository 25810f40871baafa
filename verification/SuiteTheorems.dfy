/** What holds over whole runs of a CheckSuite, and what stale caches can break. */
module SuiteTheorems {
  import opened Types
  import opened CronScan
  import opened Names
  import opened SuiteController
  import opened SuitePass
  import opened SuiteProtocol

  // ------------------------------------------------------------ once per tick

  function Recorded(w: Store): Option<int> {
    w.suite.status.lastScheduleTime
  }

  /** Whatever fails and whatever the caches show, the recorded tick only ever moves
      forward, and never past the clock. */
  lemma RecordedTickOnlyAdvances(hash: string -> string, tr: seq<Sys>, i: nat, n: nat, m: nat)
    requires Behavior(hash, tr) && i < |tr| && n <= m < |tr[i].hist|
    ensures var a, b := tr[i].hist[n], tr[i].hist[m];
      && (Recorded(a) != Recorded(b) ==> Recorded(b).Some? && (Recorded(a).Some? ==> Recorded(a).value < Recorded(b).value))
      && (Recorded(b).Some? ==> b.suite.spec.created < Recorded(b).value <= b.clock)
  {
    hide Behavior, GoodRuns, GoodPass;
    Invariant(hash, tr, i);
    assert Grows(tr[i].hist[n], tr[i].hist[m]);
    assert GoodSuite(tr[i].hist[m]);
  }

  /** Every scheduled run was made for what scanning a schedule of its suite found - a real
      tick, if the schedule has fixed ones: later than the tick handled before, due by the
      time it fired, and within the starting deadline; its name is the tick's, so one tick never has two runs at once. */
  lemma ScheduledRunsAreGenuine(hash: string -> string, tr: seq<Sys>, i: nat, n: nat, a: string, b: string)
    requires Behavior(hash, tr) && i < |tr| && n < |tr[i].hist|
    requires a in tr[i].hist[n].runs && tr[i].hist[n].runs[a].origin.Scheduled?
    requires b in tr[i].hist[n].runs && tr[i].hist[n].runs[b].origin.Scheduled?
    ensures Justified(hash, tr[i].hist, a, tr[i].hist[n].runs[a].origin.tick, tr[i].hist[n].runs[a].origin.firedAt)
    ensures tr[i].hist[n].runs[a].owned && tr[i].hist[n].runs[a].origin.firedAt <= tr[i].hist[n].clock
    ensures tr[i].hist[n].runs[a].origin.tick == tr[i].hist[n].runs[b].origin.tick ==> a == b
  {
    hide Behavior, GoodPass, GoodSuite, TickName, JustifiedBy;
    Invariant(hash, tr, i);
    var w := tr[i].hist[n];
    assert GoodRuns(hash, tr[i].hist, w);
    TickNamed(hash, tr[i], w, a);
    TickNamed(hash, tr[i], w, b);
  }

  /** A scheduled run's tick is a whole second and gives it its name. */
  lemma TickNamed(hash: string -> string, s: Sys, w: Store, a: string)
    requires Inv(hash, s) && GoodRuns(hash, s.hist, w) && a in w.runs && w.runs[a].origin.Scheduled?
    ensures a == TickName(hash, Now(s).suite.spec.name, w.runs[a].origin.tick)
    ensures w.runs[a].origin.tick % SECOND == 0
  {
    hide TickName, GoodPass, IsTick, ScanOf;
    var o := w.runs[a].origin;
    var k: nat :| k < |s.hist| && JustifiedBy(hash, s.hist[k].suite, a, o.tick, o.firedAt);
    assert GoodSuite(s.hist[k]);
    assert Grows(s.hist[k], Now(s));
  }

  /** Runs of different ticks never share a name, short of a hash coincidence; so a run
      that answers for a tick by its name really is that tick's run. */
  lemma NameTellsTick(hash: string -> string, tr: seq<Sys>, i: nat, n: nat, a: string, tick: int)
    requires Behavior(hash, tr) && i < |tr| && n < |tr[i].hist| && IsHash(hash) && tick % SECOND == 0
    requires a in tr[i].hist[n].runs && tr[i].hist[n].runs[a].origin.Scheduled?
    requires a == TickName(hash, Now(tr[i]).suite.spec.name, tick)
    ensures var t, suite := tr[i].hist[n].runs[a].origin.tick, Now(tr[i]).suite.spec.name;
      t == tick || HashCoincidence(hash, FullTickName(suite, t), FullTickName(suite, tick), MAX_NAME)
  {
    hide Behavior, GoodPass, GoodSuite, TickName, HashCoincidence;
    Invariant(hash, tr, i);
    assert GoodRuns(hash, tr[i].hist, tr[i].hist[n]);
    TickNamed(hash, tr[i], tr[i].hist[n], a);
    var t := tr[i].hist[n].runs[a].origin.tick;
    if t != tick {
      TickNamesDistinct(hash, Now(tr[i]).suite.spec.name, t, tick);
    }
  }

  // -------------------------------------------- acting only on unrecorded ticks

  /** Passes begin from a suite whose recorded tick is the current one. */
  ghost predicate SuiteCurrent(s: Sys, e: Event)
    requires |s.hist| > 0
  {
    e.Begin? ==> e.suiteAt < |s.hist| && Recorded(s.hist[e.suiteAt]) == Recorded(Now(s))
  }

  ghost predicate CurrentSuiteStep(hash: string -> string, s: Sys, s': Sys) {
    exists e :: StepBy(hash, s, e, s') && SuiteCurrent(s, e)
  }

  ghost predicate CurrentSuiteBehavior(hash: string -> string, tr: seq<Sys>) {
    && Behavior(hash, tr)
    && forall i :: 0 <= i < |tr| - 1 ==> CurrentSuiteStep(hash, tr[i], tr[i + 1])
  }

  ghost predicate ReadsRecorded(s: Sys) {
    |s.hist| > 0 && (s.pass.Active? ==> s.pass.suite.status.lastScheduleTime == Recorded(Now(s)))
  }

  lemma ReadsRecordedStep(hash: string -> string, s: Sys, e: Event, s': Sys)
    requires ReadsRecorded(s) && StepBy(hash, s, e, s') && SuiteCurrent(s, e)
    ensures ReadsRecorded(s')
  {
    hide ReadFrom, Plan, StatusAfter, Decide;
    if e.Write? {
      PlanOps(hash, s.pass.suite, s.pass.active, s.pass.victims, s.pass.now, s.pass.done);
    }
  }

  lemma {:induction false} ReadsRecordedAlways(hash: string -> string, tr: seq<Sys>, i: nat)
    requires CurrentSuiteBehavior(hash, tr) && i < |tr|
    ensures ReadsRecorded(tr[i])
  {
    hide StepBy, SuiteCurrent;
    if i > 0 {
      ReadsRecordedAlways(hash, tr, i - 1);
      assert CurrentSuiteStep(hash, tr[i - 1], tr[i]);
      var e :| StepBy(hash, tr[i - 1], e, tr[i]) && SuiteCurrent(tr[i - 1], e);
      ReadsRecordedStep(hash, tr[i - 1], e, tr[i]);
    }
  }

  /** The pass is about to create the run of this tick. */
  ghost predicate AboutToFire(hash: string -> string, s: Sys, tick: int) {
    && s.pass.Active? && s.pass.done < |PlanOf(hash, s.pass)|
    && var op := PlanOf(hash, s.pass)[s.pass.done]; op.CreateRun? && op.origin.Scheduled? && op.origin.tick == tick
  }

  lemma FireFollowsDecision(hash: string -> string, s: Sys, tick: int)
    requires AboutToFire(hash, s, tick)
    ensures s.pass.Active? && s.pass.done < |PlanOf(hash, s.pass)|
    ensures Decide(s.pass.suite, s.pass.active, s.pass.now) == Fire(tick)
    ensures s.pass.done == |PlanOf(hash, s.pass)| - 2
    ensures PlanOf(hash, s.pass)[s.pass.done].name == TickName(hash, s.pass.suite.spec.name, tick)
  {
    hide Decide, TickName, Plan;
    PlanOps(hash, s.pass.suite, s.pass.active, s.pass.victims, s.pass.now, s.pass.done);
  }

  /** When passes begin from the recorded tick, none acts on a tick at or before the one
      recorded at that moment, wherever earlier passes broke off. */
  lemma NoRecordedTickFiresAgain(hash: string -> string, tr: seq<Sys>, i: nat, tick: int)
    requires CurrentSuiteBehavior(hash, tr) && i < |tr| && AboutToFire(hash, tr[i], tick)
    ensures |tr[i].hist| > 0
    ensures Recorded(Now(tr[i])).Some? ==> tick > Recorded(Now(tr[i])).value
    ensures tick > Now(tr[i]).suite.spec.created
  {
    hide AboutToFire, ReadFrom, PlanOf, Decide, Behavior, IsTick, ValidSpec, GoodRuns, GoodPass;
    var s := tr[i];
    Invariant(hash, tr, i);
    ReadsRecordedAlways(hash, tr, i);
    FireFollowsDecision(hash, s, tick);
    PassFacts(hash, s);
  }

  lemma PassFacts(hash: string -> string, s: Sys)
    requires Inv(hash, s) && s.pass.Active?
    ensures var d := Decide(s.pass.suite, s.pass.active, s.pass.now);
      !d.NothingDue? ==> Earliest(s.pass.suite) < d.tick <= s.pass.now <= Now(s).clock
    ensures Earliest(s.pass.suite) >= s.pass.suite.spec.created == Now(s).suite.spec.created
  {
    hide Decide, Ordered, IsTick, Satisfiable, Advancing, ScanOf;
    PassSuite(hash, s);
    ScheduleAdvances(s.pass.suite.spec);
    DecisionGoesForward(s.pass.suite, s.pass.active, s.pass.now);
  }

  // --------------------------------------------------------- concurrency policy

  /** Passes begin from a listing that shows every run of the suite unfinished by now. */
  ghost predicate ListCurrent(s: Sys, e: Event)
    requires |s.hist| > 0
  {
    e.Begin? ==> forall n :: n in OfKind(Now(s).runs, IsActive) ==> n in e.active
  }

  /** Runs that have finished stay finished. */
  predicate FinishedStay(w: Store, e: WorldEvent) {
    e.Progress? && e.name in w.runs ==> KeepsFinished(w.runs[e.name].phase, e.phase)
  }

  ghost predicate Orderly(s: Sys, e: Event)
    requires |s.hist| > 0
  {
    ListCurrent(s, e) && (e.Environment? ==> FinishedStay(Now(s), e.event))
  }

  ghost predicate CurrentListStep(hash: string -> string, s: Sys, s': Sys) {
    exists e :: StepBy(hash, s, e, s') && Orderly(s, e)
  }

  ghost predicate CurrentListBehavior(hash: string -> string, tr: seq<Sys>) {
    && History(hash, tr)
    && forall i :: 0 <= i < |tr| - 1 ==> CurrentListStep(hash, tr[i], tr[i + 1])
  }

  function UnfinishedScheduled(w: Store): set<string> {
    set n | n in w.runs && w.runs[n].origin.Scheduled? && !IsTerminal(w.runs[n].phase)
  }

  ghost predicate AlwaysUnder(hist: seq<Store>, policy: Policy) {
    forall n :: 0 <= n < |hist| ==> hist[n].suite.spec.policy == policy
  }

  ghost predicate AtMostOne(names: set<string>) {
    forall a, b :: a in names && b in names ==> a == b
  }

  /** At most one unfinished scheduled run, and none while a pass is still to fire. */
  ghost predicate ForbidInv(hash: string -> string, s: Sys) {
    && |s.hist| > 0
    && (AlwaysUnder(s.hist, Forbid) ==>
          && AtMostOne(UnfinishedScheduled(Now(s)))
          && (s.pass.Active? && s.pass.done + 2 <= |PlanOf(hash, s.pass)| && Decide(s.pass.suite, s.pass.active, s.pass.now).Fire? ==>
                UnfinishedScheduled(Now(s)) == {}))
  }

  lemma ForbidsBefore(hist: seq<Store>, w: Store)
    requires AlwaysUnder(hist + [w], Forbid)
    ensures AlwaysUnder(hist, Forbid)
  {
    assert forall n :: 0 <= n < |hist| ==> (hist + [w])[n] == hist[n];
  }

  /** Nothing in the environment makes a scheduled run unfinished. */
  lemma EnvironmentFinishes(w: Store, e: WorldEvent)
    requires WorldEnabled(w, e) && FinishedStay(w, e)
    ensures UnfinishedScheduled(WorldNext(w, e)) <= UnfinishedScheduled(w)
  {
  }

  lemma WriteFinishes(w: Store, op: Op)
    ensures UnfinishedScheduled(Exec(w, op)) <= UnfinishedScheduled(w) + (if op.CreateRun? && op.origin.Scheduled? then {op.name} else {})
  {
  }

  lemma ForbidBegin(hash: string -> string, s: Sys, e: Event)
    requires ForbidInv(hash, s) && ScheduledOwned(Now(s)) && Enabled(hash, s, e) && e.Begin? && ListCurrent(s, e)
    ensures ForbidInv(hash, Next(hash, s, e))
  {
    hide ReadFrom, Plan;
    var s' := Next(hash, s, e);
    if AlwaysUnder(s.hist, Forbid) && Decide(s'.pass.suite, s'.pass.active, s'.pass.now).Fire? {
      FireMeansNoneActive(s'.pass.suite, e.active, s'.pass.now);
      assert forall n :: n in UnfinishedScheduled(Now(s)) ==> n in OfKind(Now(s).runs, IsActive);
    }
  }

  lemma FireMeansNoneActive(s: Suite, active: seq<string>, now: int)
    requires s.spec.policy == Forbid && Decide(s, active, now).Fire?
    ensures active == []
  {
  }

  lemma ForbidWrite(hash: string -> string, s: Sys)
    requires ForbidInv(hash, s) && Enabled(hash, s, Write)
    ensures ForbidInv(hash, Next(hash, s, Write))
  {
    hide ReadFrom, Plan, Decide, Exec;
    var op := PlanOf(hash, s.pass)[s.pass.done];
    if AlwaysUnder(Next(hash, s, Write).hist, Forbid) {
      ForbidsBefore(s.hist, Exec(Now(s), op));
      WriteFinishes(Now(s), op);
      PlanOps(hash, s.pass.suite, s.pass.active, s.pass.victims, s.pass.now, s.pass.done);
    }
  }

  lemma ForbidEnvironment(hash: string -> string, s: Sys, e: WorldEvent)
    requires ForbidInv(hash, s) && WorldEnabled(Now(s), e) && FinishedStay(Now(s), e)
    ensures ForbidInv(hash, Next(hash, s, Environment(e)))
  {
    hide PlanOf, Decide, WorldNext, UnfinishedScheduled;
    if AlwaysUnder(Next(hash, s, Environment(e)).hist, Forbid) {
      ForbidsBefore(s.hist, WorldNext(Now(s), e));
      EnvironmentFinishes(Now(s), e);
    }
  }

  lemma ForbidAbandon(hash: string -> string, s: Sys)
    requires ForbidInv(hash, s)
    ensures ForbidInv(hash, s.(pass := Idle))
  {
  }

  lemma ForbidStep(hash: string -> string, s: Sys, e: Event, s': Sys)
    requires ForbidInv(hash, s) && ScheduledOwned(Now(s)) && StepBy(hash, s, e, s') && Orderly(s, e)
    ensures ForbidInv(hash, s')
  {
    hide ReadFrom, Decide, WorldEnabled, WorldNext, ForbidInv, ScheduledOwned;
    match e
    case Environment(we) => ForbidEnvironment(hash, s, we);
    case Begin(_, _, _, _) => ForbidBegin(hash, s, e);
    case Write => ForbidWrite(hash, s);
    case Abandon => ForbidAbandon(hash, s);
  }

  lemma {:induction false} ForbidInvariant(hash: string -> string, tr: seq<Sys>, i: nat)
    requires CurrentListBehavior(hash, tr) && i < |tr|
    ensures ForbidInv(hash, tr[i])
  {
    hide StepBy, Orderly, ScheduledOwned;
    if i == 0 {
      assert UnfinishedScheduled(Now(tr[0])) == {};
    } else {
      ForbidInvariant(hash, tr, i - 1);
      AlwaysOwned(hash, tr, i - 1);
      assert CurrentListStep(hash, tr[i - 1], tr[i]);
      var e :| StepBy(hash, tr[i - 1], e, tr[i]) && Orderly(tr[i - 1], e);
      ForbidStep(hash, tr[i - 1], e, tr[i]);
    }
  }

  /** While the policy is Forbid, listings are current and finished runs stay finished, a
      suite never has two unfinished scheduled runs. */
  lemma ForbidRunsOneAtATime(hash: string -> string, tr: seq<Sys>, i: nat, a: string, b: string)
    requires CurrentListBehavior(hash, tr) && i < |tr| && |tr[i].hist| > 0 && AlwaysUnder(tr[i].hist, Forbid)
    requires a in UnfinishedScheduled(Now(tr[i])) && b in UnfinishedScheduled(Now(tr[i]))
    ensures a == b
  {
    ForbidInvariant(hash, tr, i);
  }

  /** Exactly when a Forbid pass over a due tick keeps to one unfinished scheduled run:
      its listing shows something active, or there really is nothing to wait for. */
  lemma OverlapNeedsMissedRun(hash: string -> string, st: Store, active: seq<string>)
    requires st.suite.spec.policy == Forbid && Decide(st.suite, [], st.clock).Fire?
    requires AtMostOne(UnfinishedScheduled(st))
    requires var tick := Decide(st.suite, [], st.clock).tick;
      && TickName(hash, st.suite.spec.name, tick) !in st.runs
      && ManualName(hash, st.suite.spec.name, st.suite.spec.runNow) != TickName(hash, st.suite.spec.name, tick)
    ensures AtMostOne(UnfinishedScheduled(ExecAll(st, LaterOps(hash, st.suite, active, st.clock))))
      <==> active != [] || UnfinishedScheduled(st) == {}
  {
    hide ExecAll, LaterOps, TickName, ManualName, ScanOf, StatusAfter;
    var s, now := st.suite, st.clock;
    PassOutcome(hash, st, s, active, now);
    DecisionReadsActive(s, active, [], now);
    var name := TickName(hash, s.spec.name, Decide(s, [], now).tick);
    var after := ExecAll(st, LaterOps(hash, s, active, now));
    var manual := st.(runs := AfterManual(hash, st, s));
    assert UnfinishedScheduled(manual) == UnfinishedScheduled(st);
    if active == [] {
      assert after.runs == manual.runs[name := NewRun(now, Scheduled(Decide(s, [], now).tick, now), s.spec.template)];
      assert UnfinishedScheduled(after) == UnfinishedScheduled(manual) + {name};
      assert name !in UnfinishedScheduled(st);
    } else {
      assert after.runs == manual.runs;
      assert UnfinishedScheduled(after) == UnfinishedScheduled(manual);
    }
  }

  // ------------------------------------------------------------------- Replace

  /** How many of the active runs a pass under Replace has deleted by now. */
  function Replaced(hash: string -> string, s: Suite, victims: seq<string>, done: nat, all: nat): nat {
    var before := |victims| + |ManualOps(hash, s)|;
    if done <= before then 0 else if done - before >= all then all else done - before
  }

  predicate Replacing(p: Pass) {
    p.Active? && p.suite.spec.policy == Replace && Decide(p.suite, p.active, p.now).Fire?
  }

  /** The names a firing pass may leave unfinished: what it has still to delete, and the
      runs it creates itself. */
  ghost predicate MayRemain(hash: string -> string, p: Pass, name: string)
    requires Replacing(p)
  {
    || name in p.active[Replaced(hash, p.suite, p.victims, p.done, |p.active|)..]
    || (ManualDue(p.suite) && name == ManualName(hash, p.suite.spec.name, p.suite.spec.runNow))
    || (p.done + 1 == |PlanOf(hash, p)| && name == TickName(hash, p.suite.spec.name, Decide(p.suite, p.active, p.now).tick))
  }

  ghost predicate ReplaceInv(hash: string -> string, s: Sys) {
    && |s.hist| > 0
    && (Replacing(s.pass) ==> forall n :: n in OfKind(Now(s).runs, IsActive) ==> MayRemain(hash, s.pass, n))
  }

  lemma EnvironmentOwns(w: Store, e: WorldEvent)
    requires WorldEnabled(w, e) && FinishedStay(w, e)
    ensures OfKind(WorldNext(w, e).runs, IsActive) <= OfKind(w.runs, IsActive)
  {
  }

  lemma WriteOwns(w: Store, op: Op)
    ensures OfKind(Exec(w, op).runs, IsActive) <=
      OfKind(w.runs, IsActive) - (if op.DeleteRun? then {op.name} else {}) + (if op.CreateRun? then {op.name} else {})
  {
  }

  predicate MakesManual(hash: string -> string, s: Suite, op: Op) {
    op.CreateRun? && ManualDue(s) && op.name == ManualName(hash, s.spec.name, s.spec.runNow)
  }

  /** The writes of a pass under Replace that fires, by position: history cleanup and the
      manual run, then every active run is deleted, then the tick's run is created. */
  lemma ReplacePlan(hash: string -> string, p: Pass)
    requires Replacing(p) && p.done < |PlanOf(hash, p)|
    ensures var plan, before := PlanOf(hash, p), |p.victims| + |ManualOps(hash, p.suite)|;
      var op := plan[p.done];
      && |plan| == before + |p.active| + 2
      && (p.done < before ==> op.DeleteRun? || MakesManual(hash, p.suite, op))
      && (before <= p.done < before + |p.active| ==> op == DeleteRun(p.active[p.done - before]))
      && (p.done == before + |p.active| ==> op.CreateRun?)
      && (p.done == before + |p.active| ==>
            op.name == TickName(hash, p.suite.spec.name, Decide(p.suite, p.active, p.now).tick))
      && (p.done == before + |p.active| + 1 ==> op.UpdateStatus?)
  {
    hide Decide, TickName, ManualName, StatusAfter;
  }

  lemma ReplaceWrite(hash: string -> string, s: Sys, n: string)
    requires ReplaceInv(hash, s) && Enabled(hash, s, Write) && Replacing(s.pass)
    requires s.pass.done + 1 < |PlanOf(hash, s.pass)|
    requires n in OfKind(Now(Next(hash, s, Write)).runs, IsActive)
    ensures MayRemain(hash, s.pass.(done := s.pass.done + 1), n)
  {
    hide Decide, TickName, ManualName, Plan, ReadFrom, ManualOps;
    var p, p' := s.pass, s.pass.(done := s.pass.done + 1);
    ReplacePlan(hash, p);
    WriteOwns(Now(s), PlanOf(hash, p)[p.done]);
    var r, r' := Replaced(hash, p.suite, p.victims, p.done, |p.active|), Replaced(hash, p.suite, p.victims, p'.done, |p.active|);
    if n in OfKind(Now(s).runs, IsActive) && n in p.active[r..] && r' != r {
      var k :| r <= k < |p.active| && p.active[k] == n;
      assert k != r ==> p.active[r'..][k - r'] == n;
    }
  }

  lemma ReplaceStep(hash: string -> string, s: Sys, e: Event, s': Sys)
    requires ReplaceInv(hash, s) && StepBy(hash, s, e, s') && Orderly(s, e)
    ensures ReplaceInv(hash, s')
  {
    hide ReadFrom, Plan, Decide, WorldNext, TickName, ManualName, OfKind;
    if Replacing(s'.pass) {
      forall n | n in OfKind(Now(s').runs, IsActive)
        ensures MayRemain(hash, s'.pass, n)
      {
        match e
        case Environment(we) => EnvironmentOwns(Now(s), we);
        case Begin(_, _, active, _) => assert active[0..] == active;
        case Write => ReplaceWrite(hash, s, n);
        case Abandon =>
      }
    }
  }

  lemma {:induction false} ReplaceInvariant(hash: string -> string, tr: seq<Sys>, i: nat)
    requires CurrentListBehavior(hash, tr) && i < |tr|
    ensures ReplaceInv(hash, tr[i])
  {
    hide StepBy, Orderly, MayRemain;
    if i > 0 {
      ReplaceInvariant(hash, tr, i - 1);
      assert CurrentListStep(hash, tr[i - 1], tr[i]);
      var e :| StepBy(hash, tr[i - 1], e, tr[i]) && Orderly(tr[i - 1], e);
      ReplaceStep(hash, tr[i - 1], e, tr[i]);
    }
  }

  /** Once a pass under Replace has fired its tick, the suite's only unfinished runs are
      that tick's run and, if it handled a trigger, the manual run. */
  lemma ReplaceLeavesOneRun(hash: string -> string, tr: seq<Sys>, i: nat, n: string)
    requires CurrentListBehavior(hash, tr) && i < |tr| && |tr[i].hist| > 0 && Replacing(tr[i].pass)
    requires tr[i].pass.done + 1 == |PlanOf(hash, tr[i].pass)|
    requires n in OfKind(Now(tr[i]).runs, IsActive)
    ensures var p := tr[i].pass;
      || n == TickName(hash, p.suite.spec.name, Decide(p.suite, p.active, p.now).tick)
      || (ManualDue(p.suite) && n == ManualName(hash, p.suite.spec.name, p.suite.spec.runNow))
  {
    hide Decide, TickName, ManualName, Plan;
    ReplaceInvariant(hash, tr, i);
    ReplacePlan(hash, tr[i].pass);
  }

  /** The names a firing pass answers for. */
  predicate OwnName(hash: string -> string, s: Suite, tick: int, n: string) {
    || n == TickName(hash, s.spec.name, tick)
    || (ManualDue(s) && n == ManualName(hash, s.spec.name, s.spec.runNow))
  }

  /** Exactly when a pass under Replace that fires leaves nothing unfinished but the runs it
      answers for: its listing showed every other run that was unfinished. */
  lemma ReplaceNeedsMissedRun(hash: string -> string, st: Store, active: seq<string>, now: int)
    requires st.suite.spec.policy == Replace && Decide(st.suite, active, now).Fire?
    ensures var tick := Decide(st.suite, active, now).tick; var after := ExecAll(st, LaterOps(hash, st.suite, active, now));
      (forall n :: n in OfKind(after.runs, IsActive) ==> OwnName(hash, st.suite, tick, n))
      <==> (forall n :: n in OfKind(st.runs, IsActive) && n !in active ==> OwnName(hash, st.suite, tick, n))
  {
    hide ExecAll, LaterOps, TickName, ManualName, Decide, StatusAfter;
    PassOutcome(hash, st, st.suite, active, now);
    var tick, after := Decide(st.suite, active, now).tick, ExecAll(st, LaterOps(hash, st.suite, active, now));
    forall n | !OwnName(hash, st.suite, tick, n)
      ensures n in OfKind(after.runs, IsActive) <==> n in OfKind(st.runs, IsActive) && n !in active
    {
    }
  }
}
