/** One CheckSuite over its whole life: passes of the reconciler, run progress, edits,
    deletions, the clock and API failures interleave write by write. The reconciler
    reads the suite and the list of runs from caches, each as of some earlier moment. */
module SuiteProtocol {
  import opened Types
  import opened CronScan
  import opened Names
  import opened SuiteController
  import opened SuitePass

  // ------------------------------------------------------------------- state

  /** A pass in flight: what it read, when, and how many of its writes are behind it. */
  datatype Pass =
    | Idle
    | Active(suite: Suite, now: int, active: seq<string>, victims: seq<string>, done: nat)

  /** Every moment of the server so far, and the pass. */
  datatype Sys = Sys(hist: seq<Store>, pass: Pass)

  function Now(s: Sys): Store
    requires |s.hist| > 0
  {
    s.hist[|s.hist| - 1]
  }

  function PlanOf(hash: string -> string, p: Pass): seq<Op>
    requires p.Active?
  {
    Plan(hash, p.suite, p.active, p.victims, p.now)
  }

  // ---------------------------------------------------------------- the steps

  datatype WorldEvent =
    | Wait(to: int)
    | Edit(spec: SuiteSpec)
    | Progress(name: string, phase: RunPhase, startTime: Option<int>)
    | Remove(name: string)
    | AdHocRun(name: string, phase: RunPhase, template: Template)

  datatype Event =
    | Environment(event: WorldEvent)
    | Begin(suiteAt: nat, listAt: nat, active: seq<string>, victims: seq<string>)
    | Write
    | Abandon

  /** Any schedule the suite has moves on, by whole seconds. */
  ghost predicate ValidSpec(spec: SuiteSpec) {
    spec.schedule.Cron? ==> Advancing(spec.schedule.next)
  }

  /** Name and creation time never change; runs go from phase to phase as their own
      reconciler says; others may delete runs and create runs the suite does not own. */
  ghost predicate WorldEnabled(w: Store, e: WorldEvent) {
    match e
    case Wait(to) => to >= w.clock
    case Edit(spec) => spec.name == w.suite.spec.name && spec.created == w.suite.spec.created
    case Progress(n, _, _) => n in w.runs
    case Remove(_) => true
    case AdHocRun(n, _, _) => n !in w.runs
  }

  function WorldNext(w: Store, e: WorldEvent): Store
    requires e.Progress? ==> e.name in w.runs
  {
    match e
    case Wait(to) => w.(clock := to)
    case Edit(spec) => w.(suite := Suite(spec, w.suite.status, w.suite.version + 1))
    case Progress(n, phase, start) => w.(runs := w.runs[n := w.runs[n].(phase := phase, startTime := start)])
    case Remove(n) => w.(runs := w.runs - {n})
    case AdHocRun(n, phase, template) => w.(runs := w.runs[n := Run(phase, None, Stored(w.clock), false, AdHoc, template)])
  }

  /** What a pass may take from a listing of `runs`: the unfinished runs, and the
      history to clean up. */
  ghost predicate ReadFrom(runs: map<string, Run>, spec: SuiteSpec, active: seq<string>, victims: seq<string>) {
    exists listed, gone, gone' ::
      && Lists(runs, listed)
      && Excess(Bucket(listed, IsSucceeded), SuccessLimit(spec), gone)
      && Excess(Bucket(listed, IsFailed), FailedLimit(spec), gone')
      && active == NamesOf(Bucket(listed, IsActive))
      && victims == NamesOf(gone) + NamesOf(gone')
  }

  ghost predicate Enabled(hash: string -> string, s: Sys, e: Event)
    requires |s.hist| > 0
  {
    match e
    case Environment(we) => WorldEnabled(Now(s), we)
    case Begin(i, j, active, victims) =>
      && s.pass.Idle? && i < |s.hist| && j < |s.hist|
      && ReadFrom(s.hist[j].runs, s.hist[i].suite.spec, active, victims)
    case Write => s.pass.Active? && s.pass.done < |PlanOf(hash, s.pass)|
    case Abandon => s.pass.Active?
  }

  /** A pass does its writes one by one and ends after the last, its status commit; any
      failed call, and any crash, abandons it. */
  function Next(hash: string -> string, s: Sys, e: Event): Sys
    requires |s.hist| > 0
    requires e.Environment? && e.event.Progress? ==> e.event.name in Now(s).runs
    requires e.Begin? ==> e.suiteAt < |s.hist|
    requires e.Write? ==> s.pass.Active? && s.pass.done < |PlanOf(hash, s.pass)|
  {
    match e
    case Environment(we) => s.(hist := s.hist + [WorldNext(Now(s), we)])
    case Begin(i, _, active, victims) => s.(pass := Active(s.hist[i].suite, Now(s).clock, active, victims, 0))
    case Write =>
      var plan := PlanOf(hash, s.pass);
      Sys(s.hist + [Exec(Now(s), plan[s.pass.done])],
          if s.pass.done + 1 == |plan| then Idle else s.pass.(done := s.pass.done + 1))
    case Abandon => s.(pass := Idle)
  }

  /** A suite nobody has handled yet; it may find runs of others. */
  ghost predicate Initial(s: Sys) {
    && |s.hist| == 1 && s.pass == Idle
    && s.hist[0].suite.status.lastScheduleTime == None
    && s.hist[0].suite.spec.created <= s.hist[0].clock
    && forall n :: n in s.hist[0].runs ==> s.hist[0].runs[n].origin == AdHoc && !s.hist[0].runs[n].owned
  }

  ghost predicate StepBy(hash: string -> string, s: Sys, e: Event, s': Sys) {
    |s.hist| > 0 && Enabled(hash, s, e) && s' == Next(hash, s, e)
  }

  ghost predicate Step(hash: string -> string, s: Sys, s': Sys) {
    exists e :: StepBy(hash, s, e, s')
  }

  /** A history of the suite, whatever its schedules are. */
  ghost predicate History(hash: string -> string, tr: seq<Sys>) {
    && |tr| > 0 && Initial(tr[0])
    && forall i :: 0 <= i < |tr| - 1 ==> Step(hash, tr[i], tr[i + 1])
  }

  ghost predicate ValidSpecs(hist: seq<Store>) {
    forall n :: 0 <= n < |hist| ==> ValidSpec(hist[n].suite.spec)
  }

  /** A history in which every schedule the suite ever has is valid. */
  ghost predicate Behavior(hash: string -> string, tr: seq<Sys>) {
    History(hash, tr) && forall i :: 0 <= i < |tr| ==> ValidSpecs(tr[i].hist)
  }

  // ------------------------------------------------------------ what a plan holds

  /** Where a pass's operations come from. */
  lemma PlanOps(hash: string -> string, s: Suite, active: seq<string>, victims: seq<string>, now: int, i: nat)
    requires i < |Plan(hash, s, active, victims, now)|
    ensures var plan := Plan(hash, s, active, victims, now); var op := plan[i];
      && (op.UpdateStatus? <==> i == |plan| - 1)
      && (op.UpdateStatus? ==> op.status == StatusAfter(hash, s, active, now) && op.version == s.version)
      && (op.CreateRun? && op.origin.Scheduled? ==>
            && i == |plan| - 2 && Decide(s, active, now) == Fire(op.origin.tick) && op.origin.firedAt == now
            && op.name == TickName(hash, s.spec.name, op.origin.tick))
      && (op.CreateRun? && !op.origin.Scheduled? ==>
            && op.origin.Manual? && i == |victims| && ManualDue(s)
            && op.name == ManualName(hash, s.spec.name, s.spec.runNow))
  {
    hide Decide, TickName, ManualName, StatusAfter;
  }

  // ------------------------------------------------------------- the invariant

  /** `b` may replace `a` as the recorded tick. */
  predicate Later(a: Option<int>, b: Option<int>) {
    a == b || (b.Some? && (a.Some? ==> a.value < b.value))
  }

  /** How two moments compare, the later one second. */
  predicate Grows(a: Store, b: Store) {
    && a.clock <= b.clock
    && a.suite.version <= b.suite.version
    && a.suite.spec.name == b.suite.spec.name && a.suite.spec.created == b.suite.spec.created
    && Later(a.suite.status.lastScheduleTime, b.suite.status.lastScheduleTime)
  }

  ghost predicate SameVersionSameSuite(a: Store, b: Store) {
    a.suite.version == b.suite.version ==> a.suite == b.suite
  }

  ghost predicate Ordered(hist: seq<Store>) {
    forall n, m :: 0 <= n <= m < |hist| ==> Grows(hist[n], hist[m]) && SameVersionSameSuite(hist[n], hist[m])
  }

  /** A scheduled run that is what it claims: made for what scanning a schedule of the suite
      found - a tick, if the schedule has fixed ones - after the tick handled last, due,
      and within the starting deadline. */
  ghost predicate Justified(hash: string -> string, hist: seq<Store>, name: string, tick: int, firedAt: int) {
    exists n: nat :: n < |hist| && JustifiedBy(hash, hist[n].suite, name, tick, firedAt)
  }

  ghost predicate JustifiedBy(hash: string -> string, s: Suite, name: string, tick: int, firedAt: int) {
    && Scheduling(s) && ScanOf(s.spec.schedule.next, Earliest(s), firedAt).lastMissed == Some(tick)
    && (Satisfiable(s.spec.schedule.next) ==> IsTick(s.spec.schedule.next, tick))
    && Stored(tick) == tick && Earliest(s) < tick <= firedAt && firedAt - tick <= StartingDeadline(s.spec)
    && name == TickName(hash, s.spec.name, tick)
  }

  ghost predicate GoodRuns(hash: string -> string, hist: seq<Store>, w: Store) {
    && (forall n :: n in w.runs && w.runs[n].origin.Scheduled? ==>
          w.runs[n].owned && w.runs[n].origin.firedAt <= w.clock
          && Justified(hash, hist, n, w.runs[n].origin.tick, w.runs[n].origin.firedAt))
    && (forall n :: n in w.runs && w.runs[n].origin == AdHoc ==> !w.runs[n].owned)
  }

  ghost predicate GoodSuite(w: Store) {
    && ValidSpec(w.suite.spec)
    && w.suite.spec.created <= w.clock
    && (w.suite.status.lastScheduleTime.Some? ==>
          w.suite.spec.created < w.suite.status.lastScheduleTime.value <= w.clock)
  }

  /** The suite was read at some moment, the clock then. */
  ghost predicate GoodPass(hash: string -> string, s: Sys)
    requires |s.hist| > 0
  {
    s.pass.Active? ==>
      && s.pass.now <= Now(s).clock && s.pass.done < |PlanOf(hash, s.pass)|
      && exists n: nat :: n < |s.hist| && s.hist[n].suite == s.pass.suite
  }

  ghost predicate Inv(hash: string -> string, s: Sys) {
    && |s.hist| > 0 && Ordered(s.hist) && GoodPass(hash, s)
    && (forall n :: 0 <= n < |s.hist| ==> GoodSuite(s.hist[n]) && GoodRuns(hash, s.hist, s.hist[n]))
  }

  lemma OrderedExtends(hist: seq<Store>, w: Store)
    requires |hist| > 0 && Ordered(hist)
    requires Grows(hist[|hist| - 1], w)
    requires w.suite == hist[|hist| - 1].suite || w.suite.version > hist[|hist| - 1].suite.version
    ensures Ordered(hist + [w])
  {
    var longer, last := hist + [w], |hist| - 1;
    forall n, m | 0 <= n <= m < |longer|
      ensures Grows(longer[n], longer[m]) && SameVersionSameSuite(longer[n], longer[m])
    {
      if n <= last < m {
        assert Grows(hist[n], hist[last]) && SameVersionSameSuite(hist[n], hist[last]);
      }
    }
  }

  lemma GoodRunsExtends(hash: string -> string, hist: seq<Store>, w: Store, more: seq<Store>)
    requires GoodRuns(hash, hist, w) && hist <= more
    ensures GoodRuns(hash, more, w)
  {
    forall n | n in w.runs && w.runs[n].origin.Scheduled?
      ensures Justified(hash, more, n, w.runs[n].origin.tick, w.runs[n].origin.firedAt)
    {
      var o := w.runs[n].origin;
      var k: nat :| k < |hist| && JustifiedBy(hash, hist[k].suite, n, o.tick, o.firedAt);
      assert more[k] == hist[k];
    }
  }

  /** A new moment that compares well with the last one keeps the history in order. */
  lemma HistoryExtends(hash: string -> string, s: Sys, w: Store, pass: Pass)
    requires Inv(hash, s) && Grows(Now(s), w) && GoodSuite(w) && GoodRuns(hash, s.hist, w)
    requires w.suite == Now(s).suite || w.suite.version > Now(s).suite.version
    requires pass == Idle || (s.pass.Active? && pass.Active? && pass == s.pass.(done := pass.done) && pass.done < |PlanOf(hash, pass)|)
    ensures Inv(hash, Sys(s.hist + [w], pass))
  {
    hide GoodSuite, GoodRuns, Grows;
    var s' := Sys(s.hist + [w], pass);
    OrderedExtends(s.hist, w);
    forall n | 0 <= n < |s'.hist|
      ensures GoodSuite(s'.hist[n]) && GoodRuns(hash, s'.hist, s'.hist[n])
    {
      GoodRunsExtends(hash, s.hist, s'.hist[n], s'.hist);
    }
    if pass.Active? {
      var n: nat :| n < |s.hist| && s.hist[n].suite == s.pass.suite;
      assert s'.hist[n].suite == pass.suite;
      assert s.pass.now <= Now(s).clock <= w.clock by { assert Grows(Now(s), w); ClockGrows(Now(s), w); }
    }
  }

  lemma ClockGrows(a: Store, b: Store)
    requires Grows(a, b)
    ensures a.clock <= b.clock
  {
  }

  lemma WorldStepKeeps(hash: string -> string, s: Sys, e: WorldEvent)
    requires Inv(hash, s) && WorldEnabled(Now(s), e) && ValidSpec(WorldNext(Now(s), e).suite.spec)
    ensures Inv(hash, Next(hash, s, Environment(e)))
  {
    hide Ordered, Justified, ValidSpec, PlanOf;
    var w, w' := Now(s), WorldNext(Now(s), e);
    assert GoodSuite(w) && GoodRuns(hash, s.hist, w);
    HistoryExtends(hash, s, w', s.pass);
  }

  /** The suite a pass read is the one of some moment, so its schedule is regular; if its
      version is still current, so is everything else about it. */
  lemma PassSuite(hash: string -> string, s: Sys)
    requires Inv(hash, s) && s.pass.Active?
    ensures ValidSpec(s.pass.suite.spec)
    ensures s.pass.suite.spec.name == Now(s).suite.spec.name && s.pass.suite.spec.created == Now(s).suite.spec.created
    ensures Earliest(s.pass.suite) >= s.pass.suite.spec.created
    ensures s.pass.suite.version == Now(s).suite.version ==> s.pass.suite == Now(s).suite
  {
    hide Justified, ValidSpec, GoodRuns, PlanOf, JustifiedBy;
    var n: nat :| n < |s.hist| && s.hist[n].suite == s.pass.suite;
    assert GoodSuite(s.hist[n]);
    assert Grows(s.hist[n], Now(s)) && SameVersionSameSuite(s.hist[n], Now(s));
  }

  /** Creating the run of a decided tick. */
  lemma TickWriteKeeps(hash: string -> string, s: Sys, op: Op)
    requires Inv(hash, s) && s.pass.Active? && op.CreateRun? && op.origin.Scheduled?
    requires Decide(s.pass.suite, s.pass.active, s.pass.now) == Fire(op.origin.tick) && op.origin.firedAt == s.pass.now
    requires op.name == TickName(hash, s.pass.suite.spec.name, op.origin.tick)
    ensures GoodRuns(hash, s.hist, Exec(Now(s), op))
  {
    hide Ordered, ValidSpec, Satisfiable, IsTick, TickName, Decide, PlanOf, Advancing, ScanOf;
    var w, w' := Now(s), Exec(Now(s), op);
    assert GoodRuns(hash, s.hist, w);
    PassSuite(hash, s);
    ScheduleAdvances(s.pass.suite.spec);
    DecisionGoesForward(s.pass.suite, s.pass.active, s.pass.now);
    var n: nat :| n < |s.hist| && s.hist[n].suite == s.pass.suite;
    assert JustifiedBy(hash, s.hist[n].suite, op.name, op.origin.tick, s.pass.now);
  }

  lemma ScheduleAdvances(spec: SuiteSpec)
    requires ValidSpec(spec)
    ensures spec.schedule.Cron? ==> Advancing(spec.schedule.next)
  {
  }

  /** The status commit, if it lands, records the decided tick, and nothing earlier. */
  lemma CommitKeeps(hash: string -> string, s: Sys)
    requires Inv(hash, s) && s.pass.Active? && s.pass.suite.version == Now(s).suite.version
    ensures var lst := StatusAfter(hash, s.pass.suite, s.pass.active, s.pass.now).lastScheduleTime;
      && Later(Now(s).suite.status.lastScheduleTime, lst)
      && (lst.Some? ==> Now(s).suite.spec.created < lst.value <= Now(s).clock)
      && (lst != Now(s).suite.status.lastScheduleTime ==>
            && lst.Some? && lst.value <= s.pass.now && Scheduling(s.pass.suite)
            && ScanOf(s.pass.suite.spec.schedule.next, Earliest(s.pass.suite), s.pass.now).lastMissed == lst
            && (Satisfiable(s.pass.suite.spec.schedule.next) ==> IsTick(s.pass.suite.spec.schedule.next, lst.value)))
  {
    hide Ordered, Satisfiable, IsTick, TickName, Decide, PlanOf, Advancing, ManualName, GoodRuns, ScanOf;
    PassSuite(hash, s);
    assert GoodSuite(Now(s));
    ScheduleAdvances(s.pass.suite.spec);
    DecisionGoesForward(s.pass.suite, s.pass.active, s.pass.now);
  }

  lemma WriteKeeps(hash: string -> string, s: Sys)
    requires Inv(hash, s) && s.pass.Active?
    ensures Inv(hash, Next(hash, s, Write))
  {
    hide Ordered, Justified, ValidSpec, Plan, StatusAfter, Decide, TickName, ManualName;
    var plan, w := PlanOf(hash, s.pass), Now(s);
    var op := plan[s.pass.done];
    PlanOps(hash, s.pass.suite, s.pass.active, s.pass.victims, s.pass.now, s.pass.done);
    assert GoodSuite(w) && GoodRuns(hash, s.hist, w);
    if op.UpdateStatus? && w.suite.version == op.version {
      CommitKeeps(hash, s);
    } else if op.CreateRun? && op.origin.Scheduled? {
      TickWriteKeeps(hash, s, op);
    }
    HistoryExtends(hash, s, Exec(w, op), Next(hash, s, Write).pass);
  }

  lemma InvStep(hash: string -> string, s: Sys, e: Event)
    requires Inv(hash, s) && Enabled(hash, s, e) && ValidSpecs(Next(hash, s, e).hist)
    ensures Inv(hash, Next(hash, s, e))
  {
    hide Ordered, GoodSuite, GoodRuns, Plan, ReadFrom;
    match e
    case Environment(we) =>
      assert Next(hash, s, e).hist[|s.hist|] == WorldNext(Now(s), we);
      WorldStepKeeps(hash, s, we);
    case Begin(i, _, _, _) => assert s.hist[i].suite == Next(hash, s, e).pass.suite; PlanIsNonempty(hash, Next(hash, s, e).pass);
    case Write => WriteKeeps(hash, s);
    case Abandon =>
  }

  lemma PlanIsNonempty(hash: string -> string, p: Pass)
    requires p.Active?
    ensures |PlanOf(hash, p)| > 0
  {
  }

  lemma {:induction false} Invariant(hash: string -> string, tr: seq<Sys>, i: nat)
    requires Behavior(hash, tr) && i < |tr|
    ensures Inv(hash, tr[i])
  {
    hide Enabled, Next;
    if i == 0 {
      InitialIsGood(hash, tr[0]);
    } else {
      Invariant(hash, tr, i - 1);
      assert Step(hash, tr[i - 1], tr[i]);
      var e :| StepBy(hash, tr[i - 1], e, tr[i]);
      InvStep(hash, tr[i - 1], e);
    }
  }

  lemma InitialIsGood(hash: string -> string, s: Sys)
    requires Initial(s) && ValidSpecs(s.hist)
    ensures Inv(hash, s)
  {
  }

  /** Whatever the schedules are, scheduled runs are the suite's own. */
  ghost predicate ScheduledOwned(w: Store) {
    forall n :: n in w.runs && w.runs[n].origin.Scheduled? ==> w.runs[n].owned
  }

  lemma OwnedStep(hash: string -> string, s: Sys, e: Event)
    requires |s.hist| > 0 && Enabled(hash, s, e) && ScheduledOwned(Now(s))
    ensures ScheduledOwned(Now(Next(hash, s, e)))
  {
    hide ReadFrom, Plan;
  }

  lemma {:induction false} AlwaysOwned(hash: string -> string, tr: seq<Sys>, i: nat)
    requires History(hash, tr) && i < |tr|
    ensures |tr[i].hist| > 0 && ScheduledOwned(Now(tr[i]))
  {
    hide Enabled, Next;
    if i > 0 {
      AlwaysOwned(hash, tr, i - 1);
      assert Step(hash, tr[i - 1], tr[i]);
      var e :| StepBy(hash, tr[i - 1], e, tr[i]);
      OwnedStep(hash, tr[i - 1], e);
      NextHasMoments(hash, tr[i - 1], e);
    }
  }

  lemma NextHasMoments(hash: string -> string, s: Sys, e: Event)
    requires |s.hist| > 0 && Enabled(hash, s, e)
    ensures |Next(hash, s, e).hist| > 0
  {
  }
}
