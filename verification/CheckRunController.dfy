/** The CheckRun reconciler: one pass over a cached view of a run and its Jobs. */
module CheckRunController {
  import opened Types
  import opened Aggregation
  import Metrics

  // ------------------------------------------------------------ the decision

  datatype Decision =
    | Finish(phase: RunPhase, summary: Option<Summary>, extra: map<ConditionType, Reason>)
    | Continue

  const MISSING_ACCOUNT := Finish(Error, None, map[ServiceAccountMissing := ServiceAccountNotFound])
  const PAST_DEADLINE := Finish(Error, None, map[DeadlineExceeded := TimedOut])
  const JOB_FAILED := Finish(Error, None, map[Completed := RunnerError])

  function StartOf(ctl: ControllerStatus, now: int): int {
    if ctl.startTime.Some? then ctl.startTime.value else now
  }

  predicate PastDeadline(t: Template, ctl: ControllerStatus, now: int) {
    now > StartOf(ctl, now) + Timeout(t)
  }

  ghost predicate SomeJobFailed(jobs: map<string, JobStatus>) {
    exists r :: r in jobs && jobs[r].failed
  }

  ghost predicate AllJobsComplete(jobs: map<string, JobStatus>) {
    forall r :: r in jobs ==> jobs[r].complete
  }

  ghost function Verdict(t: Template, entries: Entries): Decision {
    var s := SummaryOf(t, entries);
    Finish(if s.failed > 0 then Failed else Succeeded, Some(s), map[])
  }

  /** What a pass concludes from the run it read and the Jobs it saw, in the program's
      order: deadline, failed Jobs, complete results, otherwise keep waiting. */
  ghost function Decide(t: Template, ctl: ControllerStatus, entries: Entries, jobs: map<string, JobStatus>, now: int): Decision {
    if PastDeadline(t, ctl, now) then PAST_DEADLINE
    else if SomeJobFailed(jobs) then JOB_FAILED
    else if AllJobsComplete(jobs) && Complete(t, entries) then Verdict(t, entries)
    else Continue
  }

  /** The controller-owned fields a pass applies. */
  function StatusFor(d: Decision, ctl: ControllerStatus, now: int): ControllerStatus {
    var start := Some(Stored(StartOf(ctl, now)));
    match d
    case Continue => ControllerStatus(Running, start, None, None, ctl.conditions)
    case Finish(phase, summary, extra) =>
      ControllerStatus(phase, start, Some(Stored(now)), summary, (ctl.conditions + extra)[Completed := Finished(phase)])
  }

  function RequeueDelay(t: Template, ctl: ControllerStatus, now: int): int {
    StartOf(ctl, now) + Timeout(t) - now + SECOND
  }

  // ------------------------------------------------------------- the API side

  datatype Answer = Found | NotFound | CallFailed

  function WithJob(jobs: map<string, JobStatus>, runner: string): map<string, JobStatus> {
    if runner in jobs then jobs else jobs[runner := FRESH_JOB]
  }

  /** Any call may fail; a failed write may or may not have landed. */
  class RunApi {
    var ctl: ControllerStatus
    var jobs: map<string, JobStatus>
    var accountPresent: bool

    constructor (accountPresent: bool)
      ensures ctl == INITIAL_STATUS && jobs == map[] && this.accountPresent == accountPresent
    {
      ctl, jobs := INITIAL_STATUS, map[];
      this.accountPresent := accountPresent;
    }

    method GetServiceAccount() returns (a: Answer)
      ensures a == Found ==> accountPresent
      ensures a == NotFound ==> !accountPresent
    {
      var fails := *;
      a := if fails then CallFailed else if accountPresent then Found else NotFound;
    }

    /** Creating a Job that already exists is not an error. */
    method CreateJob(runner: string) returns (ok: bool)
      modifies this`jobs
      ensures jobs == old(jobs) || jobs == WithJob(old(jobs), runner)
      ensures ok ==> jobs == WithJob(old(jobs), runner)
    {
      var arrives, answered := *, *;
      if arrives {
        jobs := WithJob(jobs, runner);
      }
      ok := arrives && answered;
    }

    method ApplyStatus(status: ControllerStatus) returns (ok: bool)
      modifies this`ctl
      ensures ctl == old(ctl) || ctl == status
      ensures ok ==> ctl == status
    {
      var arrives, answered := *, *;
      if arrives {
        ctl := status;
      }
      ok := arrives && answered;
    }
  }

  // -------------------------------------------------------------- ensuring Jobs

  /** A Job as the pass sees it: its cached status, or freshly created. */
  function Seen(view: map<string, JobStatus>, runner: string): JobStatus {
    if runner in view then view[runner] else FRESH_JOB
  }

  ghost predicate SeesJobs(t: Template, view: map<string, JobStatus>, seen: map<string, JobStatus>) {
    && (forall r :: r in seen <==> IsRunner(t, r))
    && (forall r :: r in seen ==> seen[r] == Seen(view, r))
  }

  /** Only fresh Jobs of suite runners that the view lacks were added. */
  ghost predicate JobsAdded(t: Template, view: map<string, JobStatus>, before: map<string, JobStatus>,
                            after: map<string, JobStatus>) {
    && (forall r :: r in before ==> r in after && after[r] == before[r])
    && (forall r :: r in after && r !in before ==> after[r] == FRESH_JOB && r !in view && IsRunner(t, r))
  }

  ghost predicate JobsEnsured(t: Template, view: map<string, JobStatus>, before: map<string, JobStatus>,
                              after: map<string, JobStatus>) {
    && JobsAdded(t, view, before, after)
    && forall r :: IsRunner(t, r) ==> r in view || r in after
  }

  /** The table of Jobs after the first `n` runners. */
  ghost predicate SeenUpTo(t: Template, view: map<string, JobStatus>, jobs: map<string, JobStatus>,
                           seen: map<string, JobStatus>, n: nat)
    requires n <= |t.runners|
  {
    && (forall i :: 0 <= i < n ==> t.runners[i].name in seen)
    && (forall r :: r in seen ==> IsRunner(t, r) && seen[r] == Seen(view, r) && (r in view || r in jobs))
  }

  method EnsureJobs(api: RunApi, t: Template, view: map<string, JobStatus>)
    returns (ok: bool, seen: map<string, JobStatus>)
    modifies api`jobs
    ensures JobsAdded(t, view, old(api.jobs), api.jobs)
    ensures ok ==> SeesJobs(t, view, seen) && JobsEnsured(t, view, old(api.jobs), api.jobs)
  {
    seen := map[];
    for n := 0 to |t.runners|
      invariant JobsAdded(t, view, old(api.jobs), api.jobs)
      invariant SeenUpTo(t, view, api.jobs, seen, n)
    {
      var name := t.runners[n].name;
      assert IsRunner(t, name);
      var readFails := *;
      if readFails {
        return false, seen;
      }
      if name in view {
        seen := seen[name := view[name]];
      } else {
        var created := api.CreateJob(name);
        if !created {
          return false, seen;
        }
        seen := seen[name := FRESH_JOB];
      }
    }
    ok := true;
  }

  method AnyFailed(jobs: map<string, JobStatus>) returns (failed: bool)
    ensures failed <==> SomeJobFailed(jobs)
  {
    failed := false;
    var todo := jobs.Keys;
    while todo != {}
      invariant todo <= jobs.Keys
      invariant failed <==> exists r :: r in jobs && r !in todo && jobs[r].failed
      decreases todo
    {
      var r :| r in todo;
      if jobs[r].failed {
        failed := true;
      }
      todo := todo - {r};
    }
  }

  method AllSucceeded(jobs: map<string, JobStatus>) returns (all: bool)
    ensures all <==> AllJobsComplete(jobs)
  {
    all := true;
    var todo := jobs.Keys;
    while todo != {}
      invariant todo <= jobs.Keys
      invariant all <==> forall r :: r in jobs && r !in todo ==> jobs[r].complete
      decreases todo
    {
      var r :| r in todo;
      if !jobs[r].complete {
        all := false;
      }
      todo := todo - {r};
    }
  }

  method Conclude(t: Template, ctl: ControllerStatus, list: seq<RunnerStatus>, jobs: map<string, JobStatus>, now: int)
    returns (d: Decision)
    requires UniqueKeys(list)
    ensures d == Decide(t, ctl, EntriesOf(list), jobs, now)
  {
    if now > StartOf(ctl, now) + Timeout(t) {
      return PAST_DEADLINE;
    }
    var failed := AnyFailed(jobs);
    if failed {
      return JOB_FAILED;
    }
    var all := AllSucceeded(jobs);
    if all {
      var complete, summary, failing := Aggregate(t, list);
      if complete {
        var phase := Succeeded;
        if summary.failed > 0 {
          phase := Failed;
        }
        return Finish(phase, Some(summary), map[]);
      }
    }
    d := Continue;
  }

  // ---------------------------------------------------------------- one pass

  datatype PassResult = PassFailed | PassDone | RequeueAfter(delay: int)

  /** The run as read from the cache, plus the labels its metrics carry. */
  datatype RunView = RunView(ctl: ControllerStatus, runners: seq<RunnerStatus>, namespace: string, suiteRef: Option<string>)

  /** The metrics of a pass that finished the run with the phase now stored. */
  ghost predicate RunRecorded(before: Metrics.Snapshot, after: Metrics.Snapshot, view: RunView, phase: RunPhase, now: int,
                              suiteVisible: bool) {
    Metrics.Recorded(before, after, Metrics.SuiteKey(view.namespace, if view.suiteRef.Some? then view.suiteRef.value else ""),
                     view.runners, phase, if view.ctl.startTime.Some? then now - view.ctl.startTime.value else 0,
                     now - now % 1_000_000_000, view.suiteRef.Some? && !suiteVisible)
  }

  /** Applies the decided fields; a finished run's metrics follow a successful apply, and
      only that. */
  method Settle(api: RunApi, registry: Metrics.Registry, t: Template, view: RunView, d: Decision, now: int, suiteVisible: bool)
    returns (result: PassResult)
    modifies api`ctl, registry
    ensures api.ctl == old(api.ctl) || api.ctl == StatusFor(d, view.ctl, now)
    ensures result != PassFailed ==> api.ctl == StatusFor(d, view.ctl, now)
    ensures result != PassFailed ==> result == if d.Continue? then RequeueAfter(RequeueDelay(t, view.ctl, now)) else PassDone
    ensures if result == PassDone then RunRecorded(old(registry.Exported()), registry.Exported(), view, d.phase, now, suiteVisible)
            else registry.Exported() == old(registry.Exported())
  {
    var ok := api.ApplyStatus(StatusFor(d, view.ctl, now));
    if !ok {
      return PassFailed;
    }
    if d.Continue? {
      return RequeueAfter(RequeueDelay(t, view.ctl, now));
    }
    registry.RecordMetrics(view.namespace, view.suiteRef, view.runners, d.phase, now - StartOf(view.ctl, now), Stored(now), suiteVisible);
    result := PassDone;
  }

  method Reconcile(api: RunApi, registry: Metrics.Registry, t: Template, view: RunView,
                   jobsView: map<string, JobStatus>, now: int, suiteVisible: bool)
    returns (result: PassResult)
    requires UniqueKeys(view.runners)
    modifies api, registry
    ensures api.accountPresent == old(api.accountPresent)
    // a finished run is left alone
    ensures IsTerminal(view.ctl.phase) ==> result == PassDone && api.ctl == old(api.ctl) && api.jobs == old(api.jobs)
    // a run that has not started errors without its ServiceAccount, before any Job exists
    ensures !IsTerminal(view.ctl.phase) && view.ctl.startTime.None? && !api.accountPresent ==>
      && api.jobs == old(api.jobs)
      && (api.ctl == old(api.ctl) || api.ctl == StatusFor(MISSING_ACCOUNT, view.ctl, now))
      && (result != PassFailed ==> result == PassDone && api.ctl == StatusFor(MISSING_ACCOUNT, view.ctl, now))
    // metrics are recorded exactly when the run was finished by this pass
    ensures if !IsTerminal(view.ctl.phase) && result == PassDone
            then RunRecorded(old(registry.Exported()), registry.Exported(), view, api.ctl.phase, now, suiteVisible)
            else registry.Exported() == old(registry.Exported())
    // otherwise Jobs are ensured and the decision over them is applied
    ensures !IsTerminal(view.ctl.phase) && (view.ctl.startTime.Some? || api.accountPresent) ==>
      JobsAdded(t, jobsView, old(api.jobs), api.jobs)
    ensures !IsTerminal(view.ctl.phase) && (view.ctl.startTime.Some? || api.accountPresent)
            && (result != PassFailed || api.ctl != old(api.ctl)) ==>
      && JobsEnsured(t, jobsView, old(api.jobs), api.jobs)
      && exists seen :: SeesJobs(t, jobsView, seen)
           && var d := Decide(t, view.ctl, EntriesOf(view.runners), seen, now);
              && api.ctl == StatusFor(d, view.ctl, now)
              && (result != PassFailed ==>
                    result == if d.Continue? then RequeueAfter(RequeueDelay(t, view.ctl, now)) else PassDone)
  {
    if IsTerminal(view.ctl.phase) {
      return PassDone;
    }
    if view.ctl.startTime.None? {
      var account := api.GetServiceAccount();
      if account == CallFailed {
        return PassFailed;
      }
      if account == NotFound {
        result := Settle(api, registry, t, view, MISSING_ACCOUNT, now, suiteVisible);
        return;
      }
    }
    var ok, seen := EnsureJobs(api, t, jobsView);
    if !ok {
      return PassFailed;
    }
    var d := Conclude(t, view.ctl, view.runners, seen, now);
    result := Settle(api, registry, t, view, d, now, suiteVisible);
  }

  // -------------------------------------------------- properties of a decision

  /** How long a run may take: what its template says, or ten minutes. */
  ghost predicate InTime(t: Template, ctl: ControllerStatus, now: int) {
    var limit := if t.timeout.Some? then t.timeout.value else 600 * SECOND;
    if ctl.startTime.Some? then now <= ctl.startTime.value + limit else 0 <= limit
  }

  /** A pass gives up for the deadline exactly when the time allowed since the start it read
      has gone by, and never on a run it finds unstarted unless no time is allowed at all. */
  lemma DeadlineExactly(t: Template, ctl: ControllerStatus, entries: Entries, jobs: map<string, JobStatus>, now: int)
    ensures var d := Decide(t, ctl, entries, jobs, now); var limit := if t.timeout.Some? then t.timeout.value else 600 * SECOND;
      d.Finish? && DeadlineExceeded in d.extra <==>
        (ctl.startTime.Some? && now > ctl.startTime.value + limit) || (ctl.startTime.None? && limit < 0)
  {
  }

  /** In time it decides by the Jobs and the results alone: a failed Job is an Error; all
      Jobs and all results complete give a verdict, Failed exactly when some entry lacks a
      pass for an assigned check; and anything else waits. */
  lemma InTimeDecision(t: Template, ctl: ControllerStatus, entries: Entries, jobs: map<string, JobStatus>, now: int)
    requires ValidTemplate(t) && InTime(t, ctl, now)
    ensures var d := Decide(t, ctl, entries, jobs, now);
      && (d.Finish? && d.phase == Error <==> exists r :: r in jobs && jobs[r].failed)
      && (d.Finish? && d.phase != Error <==>
            (forall r :: r in jobs ==> jobs[r].complete && !jobs[r].failed) && Complete(t, entries))
      && (d.Finish? && d.phase != Error ==>
            && d.summary == Some(SummaryOf(t, entries)) && d.extra == map[] && (d.phase == Succeeded || d.phase == Failed)
            && (d.phase == Failed <==> exists i, j :: 0 <= i < |t.runners| && 0 <= j < |t.checks| && FailsAt(t, entries, i, j)))
  {
    hide ValidTemplate, Complete, SummaryOf, FailsAt;
    FailsExactly(t, entries);
  }

  /** The fields a pass applies: the start it read or else its own clock, as whole seconds;
      a waiting one nothing more; a finishing one its clock, the decided phase and summary,
      and its conditions over those it read. */
  lemma AppliedFields(d: Decision, ctl: ControllerStatus, now: int)
    ensures var st := StatusFor(d, ctl, now); var start := if ctl.startTime.Some? then ctl.startTime.value else now;
      && st.startTime.Some? && st.startTime.value % 1_000_000_000 == 0 && 0 <= start - st.startTime.value < 1_000_000_000
      && (d.Continue? ==> st == ControllerStatus(Running, st.startTime, None, None, ctl.conditions))
      && (d.Finish? ==>
            && st.phase == d.phase && st.summary == d.summary && st.completionTime.Some?
            && st.completionTime.value % 1_000_000_000 == 0 && 0 <= now - st.completionTime.value < 1_000_000_000
            && st.conditions == (ctl.conditions + d.extra)[Completed := Finished(d.phase)])
  {
  }

  /** What the metrics of a finished run say about it: how long it took since the start the
      pass read, its phase, and for a verdict of an existing suite the completion time that
      is stored, all under its namespace and suite. */
  lemma MetricsMatchStatus(before: Metrics.Snapshot, after: Metrics.Snapshot, view: RunView, d: Decision, now: int, suiteVisible: bool)
    requires d.Finish? && RunRecorded(before, after, view, d.phase, now, suiteVisible)
    ensures var key := Metrics.SuiteKey(view.namespace, if view.suiteRef.Some? then view.suiteRef.value else "");
      && Metrics.Observations(after.runDurations, key)
         == Metrics.Observations(before.runDurations, key) + [if view.ctl.startTime.Some? then now - view.ctl.startTime.value else 0]
      && Metrics.Get(after.runsTotal, Metrics.PhaseSeries(key, d.phase))
         == Metrics.Get(before.runsTotal, Metrics.PhaseSeries(key, d.phase)) + 1
      && ((d.phase == Succeeded || d.phase == Failed) && (view.suiteRef.None? || suiteVisible) ==>
            key in after.lastCompletion && Some(after.lastCompletion[key]) == StatusFor(d, view.ctl, now).completionTime)
  {
    hide Metrics.Grew, Metrics.IsVerdicts, Metrics.Replaced;
  }

  /** A run with a verdict completed within its timeout, measured on stored times. */
  lemma VerdictWithinTimeout(t: Template, ctl: ControllerStatus, entries: Entries, jobs: map<string, JobStatus>, now: int)
    requires ctl.startTime.Some? ==> Stored(ctl.startTime.value) == ctl.startTime.value
    ensures var d := Decide(t, ctl, entries, jobs, now); var st := StatusFor(d, ctl, now);
      && (st.phase == Succeeded || st.phase == Failed ==>
            st.startTime.Some? && st.completionTime.Some?
            && st.completionTime.value - st.startTime.value <= if t.timeout.Some? then t.timeout.value else 600 * SECOND)
      && (d.Finish? <==> IsTerminal(st.phase)) && (d.Continue? <==> st.phase == Running)
      && Stored(st.startTime.value) == st.startTime.value
  {
  }

  /** A waiting pass asks to be woken one second after the deadline, that is no sooner than a
      second from now and strictly past the deadline even for a start time rounded down when
      stored; a pass at that instant that still sees a start no later is terminal. */
  lemma WakeUpIsPastDeadline(t: Template, ctl: ControllerStatus, entries: Entries, jobs: map<string, JobStatus>, now: int,
                             later: ControllerStatus, entries': Entries, jobs': map<string, JobStatus>, now': int)
    requires Decide(t, ctl, entries, jobs, now) == Continue
    requires now' >= now + RequeueDelay(t, ctl, now)
    ensures now + RequeueDelay(t, ctl, now) == (if ctl.startTime.Some? then ctl.startTime.value else now)
      + (if t.timeout.Some? then t.timeout.value else 600 * SECOND) + SECOND
    ensures RequeueDelay(t, ctl, now) >= SECOND
    ensures now' > StatusFor(Continue, ctl, now).startTime.value + Timeout(t)
    ensures later.startTime.Some? && later.startTime.value <= StartOf(ctl, now) ==>
      Decide(t, later, entries', jobs', now') == PAST_DEADLINE
  {
  }

  /** Every finished status says so, and only so: the reason of a failed Job does not
      survive, because Completed is set a second time. */
  lemma CompletedReasonIsPhase(d: Decision, ctl: ControllerStatus, now: int)
    requires d.Finish?
    ensures var c := StatusFor(d, ctl, now).conditions;
      && Completed in c && c[Completed] == Finished(d.phase)
      && (d == JOB_FAILED && RunnerError !in ctl.conditions.Values ==> RunnerError !in c.Values)
      && (d == PAST_DEADLINE ==> DeadlineExceeded in c && c[DeadlineExceeded] == TimedOut)
      && (d == MISSING_ACCOUNT ==> ServiceAccountMissing in c && c[ServiceAccountMissing] == ServiceAccountNotFound)
  {
  }

  /** A verdict reached from one view is never undone from a view that is not older:
      a later pass with every Job still finished concludes, and a failure stays one. */
  lemma VerdictSurvives(t: Template, entries: Entries, ctl': ControllerStatus, entries': Entries,
                        jobs': map<string, JobStatus>, now': int)
    requires Complete(t, entries) && EntriesGrow(entries, entries') && AllJobsComplete(jobs')
    ensures Decide(t, ctl', entries', jobs', now').Finish?
    ensures SomeFails(t, entries) ==> Decide(t, ctl', entries', jobs', now').phase != Succeeded
  {
    VerdictMonotone(t, entries, entries');
    FailedCountsFailures(t, entries');
  }
}
