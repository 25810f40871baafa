/** What stale caches and withdrawn Errors can break: concrete histories of a suite that
    runs every minute. */
module SuiteStaleReads {
  import opened Types
  import opened CronScan
  import opened Names
  import opened SuiteController
  import opened SuitePass
  import opened SuiteProtocol
  import opened SuiteTheorems
  import opened MinuteSuites

  lemma EmptyListing(spec: SuiteSpec)
    ensures ReadFrom(map[], spec, [], [])
  {
    var none: seq<Listed> := [];
    assert Lists(map[], none);
    assert Excess(Bucket(none, IsSucceeded), SuccessLimit(spec), none);
    assert Excess(Bucket(none, IsFailed), FailedLimit(spec), none);
  }

  predicate IsEdit(e: Event) {
    e.Environment? && e.event.Edit?
  }

  lemma SpecsKept(hash: string -> string, s: Sys, e: Event, s': Sys)
    requires StepBy(hash, s, e, s') && !IsEdit(e) && ValidSpecs(s.hist)
    ensures ValidSpecs(s'.hist)
  {
    hide ValidSpec, ReadFrom, Plan;
  }

  lemma Extends(hash: string -> string, tr: seq<Sys>, e: Event, s': Sys)
    requires Behavior(hash, tr) && StepBy(hash, tr[|tr| - 1], e, s') && !IsEdit(e)
    ensures Behavior(hash, tr + [s'])
  {
    SpecsKept(hash, tr[|tr| - 1], e, s');
    hide StepBy, Initial, ValidSpecs;
    var longer := tr + [s'];
    forall i | 0 <= i < |longer| - 1
      ensures Step(hash, longer[i], longer[i + 1])
    {
      if i < |tr| - 1 { assert longer[i] == tr[i] && longer[i + 1] == tr[i + 1]; }
    }
  }

  /** A pass with nothing listed that fires: create the tick's run, then commit. */
  lemma FiringPlan(hash: string -> string, s: Suite, now: int, tick: int)
    requires !ManualDue(s) && Decide(s, [], now) == Fire(tick)
    ensures Plan(hash, s, [], [], now)
      == [CreateRun(TickName(hash, s.spec.name, tick), Scheduled(tick, now), s.spec.template),
          UpdateStatus(StatusAfter(hash, s, [], now), s.version)]
  {
    hide Decide, TickName, StatusAfter;
  }

  function Start(policy: Policy): Store {
    Store(0, MinuteSuite(policy, "", None, 0, [], None), map[])
  }

  function FirstRun(hash: string -> string): map<string, Run> {
    map[TickName(hash, "s", MINUTE) := NewRun(MINUTE, Scheduled(MINUTE, MINUTE), Template([], [], None))]
  }

  /** The suite's first tick fires and is committed. */
  lemma FirstMinute(hash: string -> string, policy: Policy) returns (tr: seq<Sys>)
    ensures |tr| > 0 && Behavior(hash, tr)
    ensures var s := tr[|tr| - 1];
      && s.pass == Idle && |s.hist| == 4 && s.hist[0] == Start(policy) && AlwaysUnder(s.hist, policy)
      && s.hist[3].clock == MINUTE && s.hist[3].runs == FirstRun(hash)
      && s.hist[3].suite == MinuteSuite(policy, "", Some(MINUTE), 1, [TickName(hash, "s", MINUTE)], Some(true))
  {
    hide TickName, Decide, ReadFrom, Plan, Behavior;
    FreshBehavior(hash, policy);
    var s0 := Sys([Start(policy)], Idle);
    var s1 := Next(hash, s0, Environment(Wait(MINUTE)));
    Extends(hash, [s0], Environment(Wait(MINUTE)), s1);
    EmptyListing(Start(policy).suite.spec);
    var s2 := Next(hash, s1, Begin(0, 0, [], []));
    Extends(hash, [s0] + [s1], Begin(0, 0, [], []), s2);
    MinuteFires(Start(policy).suite, 0);
    FiringPlan(hash, Start(policy).suite, MINUTE, MINUTE);
    var s3 := Next(hash, s2, Write);
    Extends(hash, [s0] + [s1] + [s2], Write, s3);
    var s4 := Next(hash, s3, Write);
    Extends(hash, [s0] + [s1] + [s2] + [s3], Write, s4);
    assert s3.hist[2].runs == FirstRun(hash);
    tr := [s0] + [s1] + [s2] + [s3] + [s4];
  }

  lemma FreshBehavior(hash: string -> string, policy: Policy)
    ensures Behavior(hash, [Sys([Start(policy)], Idle)])
  {
    MinutesAreRegular();
    MinutesAdvance();
  }

  /** A minute later a pass reads the suite as it is and lists the runs as they were
      before the first one: whatever the policy, a second run starts beside it. */
  lemma StaleListStartsSecond(hash: string -> string, policy: Policy) returns (tr: seq<Sys>)
    requires IsHash(hash)
    ensures |tr| > 0 && Behavior(hash, tr)
    ensures var s := tr[|tr| - 1]; |s.hist| > 0 && AlwaysUnder(s.hist, policy) && |UnfinishedScheduled(Now(s))| == 2
  {
    hide TickName, Decide, ReadFrom, Plan, Behavior;
    tr := FirstMinute(hash, policy);
    var s0 := tr[|tr| - 1];
    var s1 := Next(hash, s0, Environment(Wait(2 * MINUTE)));
    Extends(hash, tr, Environment(Wait(2 * MINUTE)), s1);
    EmptyListing(s1.hist[4].suite.spec);
    var s2 := Next(hash, s1, Begin(4, 0, [], []));
    Extends(hash, tr + [s1], Begin(4, 0, [], []), s2);
    MinuteFires(s1.hist[4].suite, 1);
    FiringPlan(hash, s1.hist[4].suite, 2 * MINUTE, 2 * MINUTE);
    var s3 := Next(hash, s2, Write);
    Extends(hash, tr + [s1] + [s2], Write, s3);
    tr := tr + [s1] + [s2] + [s3];
    NamesDiffer(hash);
    SecondRun(hash, s1.hist[4]);
  }

  lemma SecondRun(hash: string -> string, w: Store)
    requires w.runs == FirstRun(hash) && TickName(hash, "s", MINUTE) != TickName(hash, "s", 2 * MINUTE)
    ensures var op := CreateRun(TickName(hash, "s", 2 * MINUTE), Scheduled(2 * MINUTE, 2 * MINUTE), Template([], [], None));
      |UnfinishedScheduled(Exec(w, op))| == 2
  {
    hide TickName;
    var a, b := TickName(hash, "s", MINUTE), TickName(hash, "s", 2 * MINUTE);
    var op := CreateRun(b, Scheduled(2 * MINUTE, 2 * MINUTE), Template([], [], None));
    assert UnfinishedScheduled(Exec(w, op)) == {a, b};
  }

  /** So a stale listing breaks Forbid, which should have skipped the second tick... */
  lemma StaleListBreaksForbid(hash: string -> string) returns (tr: seq<Sys>)
    requires IsHash(hash)
    ensures |tr| > 0 && Behavior(hash, tr)
    ensures var s := tr[|tr| - 1]; |s.hist| > 0 && AlwaysUnder(s.hist, Forbid) && |UnfinishedScheduled(Now(s))| == 2
  {
    tr := StaleListStartsSecond(hash, Forbid);
  }

  /** ...and Replace, which should have deleted the first run. */
  lemma StaleListBreaksReplace(hash: string -> string) returns (tr: seq<Sys>)
    requires IsHash(hash)
    ensures |tr| > 0 && Behavior(hash, tr)
    ensures var s := tr[|tr| - 1]; |s.hist| > 0 && AlwaysUnder(s.hist, Replace) && |UnfinishedScheduled(Now(s))| == 2
  {
    tr := StaleListStartsSecond(hash, Replace);
  }

  /** The run is deleted, and a pass reads the suite as it was before the commit: the
      recorded tick fires once more. Its own commit then conflicts and changes nothing. */
  lemma StaleSuiteRepeatsTick(hash: string -> string) returns (tr: seq<Sys>)
    ensures Behavior(hash, tr)
    ensures |tr| > 2
    ensures var n := |tr|; var s, fired, ended := tr[n - 3], tr[n - 2], tr[n - 1];
      && |s.hist| > 0 && |fired.hist| > 0 && |ended.hist| > 0
      && Recorded(Now(s)) == Some(MINUTE) && AboutToFire(hash, s, MINUTE)
      && Now(s).runs == map[] && TickName(hash, "s", MINUTE) in Now(fired).runs
      && Now(ended) == Now(fired) && ended.pass == Idle
  {
    hide TickName, Decide, ReadFrom, Plan, Behavior;
    tr := FirstMinute(hash, Forbid);
    var s0 := tr[|tr| - 1];
    var s1 := Next(hash, s0, Environment(Remove(TickName(hash, "s", MINUTE))));
    Extends(hash, tr, Environment(Remove(TickName(hash, "s", MINUTE))), s1);
    assert s1.hist[4].runs == map[];
    EmptyListing(Start(Forbid).suite.spec);
    var s2 := Next(hash, s1, Begin(0, 4, [], []));
    Extends(hash, tr + [s1], Begin(0, 4, [], []), s2);
    MinuteFires(Start(Forbid).suite, 0);
    FiringPlan(hash, Start(Forbid).suite, MINUTE, MINUTE);
    var s3 := Next(hash, s2, Write);
    Extends(hash, tr + [s1] + [s2], Write, s3);
    var s4 := Next(hash, s3, Write);
    Extends(hash, tr + [s1] + [s2] + [s3], Write, s4);
    tr := tr + [s1] + [s2] + [s3] + [s4];
  }

  // ------------------------------------------------------ a withdrawn Error

  lemma SingleBucket(x: Listed, k: Kind)
    ensures Bucket([x], k) == if Belongs(x, k) then [x] else []
  {
    assert [x][..0] == [];
  }

  lemma NoExcess(runs: seq<Listed>, limit: nat)
    requires |runs| <= limit
    ensures Excess(runs, limit, [])
  {
  }

  lemma FailedListing(spec: SuiteSpec, name: string, run: Run)
    requires run.owned && run.phase == Error && FailedLimit(spec) > 0
    ensures ReadFrom(map[name := run], spec, [], [])
  {
    var listed, none: seq<Listed> := [Listed(name, run)], [];
    assert Lists(map[name := run], listed);
    SingleBucket(listed[0], IsActive);
    SingleBucket(listed[0], IsSucceeded);
    SingleBucket(listed[0], IsFailed);
    NoExcess(Bucket(listed, IsSucceeded), SuccessLimit(spec));
    NoExcess(Bucket(listed, IsFailed), FailedLimit(spec));
    hide Lists, Bucket, Excess, SuccessLimit, FailedLimit;
    assert NamesOf(Bucket(listed, IsActive)) == [] && NamesOf(none) + NamesOf(none) == [];
  }

  /** With every suite read and listing current, Forbid still ends up with two unfinished
      scheduled runs if the first one's Error is withdrawn after the second has started. */
  lemma WithdrawnErrorBreaksForbid(hash: string -> string) returns (tr: seq<Sys>)
    requires IsHash(hash)
    ensures |tr| > 0 && Behavior(hash, tr)
    ensures var s := tr[|tr| - 1]; |s.hist| > 0 && AlwaysUnder(s.hist, Forbid) && |UnfinishedScheduled(Now(s))| == 2
  {
    hide TickName, Decide, ReadFrom, Plan, Behavior;
    var name := TickName(hash, "s", MINUTE);
    tr := FirstMinute(hash, Forbid);
    var s0 := tr[|tr| - 1];
    var fails := Environment(Progress(name, Error, None));
    var s1 := Next(hash, s0, fails);
    Extends(hash, tr, fails, s1);
    var s2 := Next(hash, s1, Environment(Wait(2 * MINUTE)));
    Extends(hash, tr + [s1], Environment(Wait(2 * MINUTE)), s2);
    var failed := FirstRun(hash)[name].(phase := Error);
    assert s2.hist[5].runs == map[name := failed];
    FailedListing(s2.hist[5].suite.spec, name, failed);
    var s3 := Next(hash, s2, Begin(5, 5, [], []));
    Extends(hash, tr + [s1] + [s2], Begin(5, 5, [], []), s3);
    MinuteFires(s2.hist[5].suite, 1);
    FiringPlan(hash, s2.hist[5].suite, 2 * MINUTE, 2 * MINUTE);
    var s4 := Next(hash, s3, Write);
    Extends(hash, tr + [s1] + [s2] + [s3], Write, s4);
    NamesDiffer(hash);
    var revives := Environment(Progress(name, Running, None));
    var s5 := Next(hash, s4, revives);
    Extends(hash, tr + [s1] + [s2] + [s3] + [s4], revives, s5);
    tr := tr + [s1] + [s2] + [s3] + [s4] + [s5];
    TwoUnfinished(hash, s2.hist[5], failed);
  }

  lemma TwoUnfinished(hash: string -> string, w: Store, failed: Run)
    requires failed.origin.Scheduled? && w.runs == map[TickName(hash, "s", MINUTE) := failed]
    requires TickName(hash, "s", MINUTE) != TickName(hash, "s", 2 * MINUTE)
    ensures var op := CreateRun(TickName(hash, "s", 2 * MINUTE), Scheduled(2 * MINUTE, 2 * MINUTE), Template([], [], None));
      var started := Exec(w, op);
      && TickName(hash, "s", MINUTE) in started.runs
      && |UnfinishedScheduled(WorldNext(started, Progress(TickName(hash, "s", MINUTE), Running, None)))| == 2
  {
    hide TickName;
    var a, b := TickName(hash, "s", MINUTE), TickName(hash, "s", 2 * MINUTE);
    var op := CreateRun(b, Scheduled(2 * MINUTE, 2 * MINUTE), Template([], [], None));
    assert UnfinishedScheduled(WorldNext(Exec(w, op), Progress(a, Running, None))) == {a, b};
  }
}
