/** When a finished run stays as it is: exactly how far the run cache has to have come. */
module CheckRunFinality {
  import opened Types
  import opened Aggregation
  import opened CheckRunController
  import opened CheckRunProtocol
  import opened CheckRunTheorems

  // ------------------------------------------------------------ continuations

  ghost predicate Path(t: Template, tr: seq<Sys>) {
    |tr| > 0 && forall i :: 0 <= i < |tr| - 1 ==> Step(t, tr[i], tr[i + 1])
  }

  ghost predicate PathFrom(t: Template, s: Sys, tr: seq<Sys>) {
    |tr| > 0 && tr[0] == s && Path(t, tr)
  }

  function Last(tr: seq<Sys>): Sys
    requires |tr| > 0
  {
    tr[|tr| - 1]
  }

  lemma OneStatePath(t: Template, s: Sys)
    ensures Path(t, [s])
  {
  }

  lemma OneMoreStep(t: Template, tr: seq<Sys>, e: Event) returns (longer: seq<Sys>)
    requires Path(t, tr) && |Last(tr).hist| > 0 && Enabled(t, Last(tr), e)
    ensures PathFrom(t, tr[0], longer) && Last(longer) == Next(t, Last(tr), e)
  {
    longer := tr + [Next(t, Last(tr), e)];
    hide Enabled, Next;
    forall i | 0 <= i < |longer| - 1
      ensures Step(t, longer[i], longer[i + 1])
    {
      if i < |tr| - 1 { assert Step(t, tr[i], tr[i + 1]); }
    }
  }

  lemma Joined(t: Template, a: seq<Sys>, b: seq<Sys>) returns (tr: seq<Sys>)
    requires Path(t, a) && PathFrom(t, Last(a), b)
    ensures PathFrom(t, a[0], tr) && Last(tr) == Last(b)
  {
    tr := a + b[1..];
    forall i | 0 <= i < |tr| - 1
      ensures Step(t, tr[i], tr[i + 1])
    {
      if i < |a| - 1 {
        assert Step(t, a[i], a[i + 1]);
      } else {
        assert tr[i] == b[i - |a| + 1] && tr[i + 1] == b[i - |a| + 2];
      }
    }
  }

  lemma {:induction false} PathKeepsInv(t: Template, tr: seq<Sys>)
    requires ValidTemplate(t) && Path(t, tr) && Inv(t, tr[0])
    ensures |tr| > 0 && Inv(t, Last(tr)) && tr[0].hist <= Last(tr).hist
    decreases |tr|
  {
    hide Inv, Enabled, Next, ValidTemplate;
    if |tr| > 1 {
      var front := tr[..|tr| - 1];
      PathKeepsInv(t, front);
      assert Step(t, tr[|tr| - 2], tr[|tr| - 1]);
      var e :| Enabled(t, Last(front), e) && Last(tr) == Next(t, Last(front), e);
      InvStep(t, Last(front), e);
      HistoryStepGrows(t, Last(front), e);
    } else {
      StartsNonempty(t, tr[0]);
    }
  }

  lemma StartsNonempty(t: Template, s: Sys)
    requires Inv(t, s)
    ensures |s.hist| > 0
  {
  }

  // ----------------------------------------------------- a pass of one's choice

  /** The first `n` runners as a pass sees them that starts from `before` and finds the
      others in `jobs`. */
  ghost predicate Looked(t: Template, jobs: map<string, JobStatus>, before: map<string, JobStatus>, seen: map<string, JobStatus>, n: nat) {
    && n <= |t.runners|
    && (forall i :: 0 <= i < n ==> t.runners[i].name in seen)
    && (forall r :: r in before ==> r in seen)
    && (forall r :: r in seen ==> seen[r] == if r in before then before[r] else Seen(jobs, r))
  }

  ghost predicate SeenIn(t: Template, jobs: map<string, JobStatus>, seen: map<string, JobStatus>, n: nat) {
    Looked(t, jobs, map[], seen, n)
  }

  /** Only the first `n` runners have been looked at. */
  ghost predicate SeenBelow(t: Template, seen: map<string, JobStatus>, n: nat) {
    forall r :: r in seen ==> exists i :: 0 <= i < n && i < |t.runners| && t.runners[i].name == r
  }

  /** From a pass past its account check: look at the remaining Jobs, all as of the oldest
      moment the Job cache may still show. */
  lemma {:induction false} LookAtJobs(t: Template, s: Sys, before: map<string, JobStatus>, n: nat) returns (tr: seq<Sys>)
    requires ValidTemplate(t) && Inv(t, s) && s.pass.Active? && s.pass.account == Present
    requires SeenBelow(t, before, n) && n <= s.pass.next
    requires Looked(t, s.hist[s.jobsAt].jobs, before, s.pass.seen, s.pass.next)
    ensures PathFrom(t, s, tr)
    ensures var s' := Last(tr);
      && s'.pass.Active? && s'.pass.at == s.pass.at && s'.pass.now == s.pass.now && s'.pass.account == Present
      && s'.pass.next == |t.runners| && s'.runAt == s.runAt && s'.jobsAt == s.jobsAt
      && s.hist <= s'.hist && Now(s').clock == Now(s).clock
      && Looked(t, s.hist[s.jobsAt].jobs, before, s'.pass.seen, |t.runners|)
    decreases |t.runners| - s.pass.next
  {
    if s.pass.next == |t.runners| {
      tr := [s];
    } else {
      var r := t.runners[s.pass.next].name;
      var e := if r in s.hist[s.jobsAt].jobs then SeeJob(s.jobsAt) else MakeJob(s.jobsAt);
      LookAtOne(t, s, e, before, n);
      var s1 := Next(t, s, e);
      hide Inv, ValidTemplate, Looked, SeenBelow, Next, Enabled;
      var rest := LookAtJobs(t, s1, before, n);
      var first := OneMoreStep(t, [s], e);
      tr := Joined(t, first, rest);
    }
  }

  lemma InvBounds(t: Template, s: Sys)
    requires Inv(t, s)
    ensures Bounded(t, s)
  {
  }

  lemma LookedOneMore(t: Template, jobs: map<string, JobStatus>, before: map<string, JobStatus>, seen: map<string, JobStatus>, n: nat, from: nat)
    requires ValidTemplate(t) && Looked(t, jobs, before, seen, n) && n < |t.runners| && SeenBelow(t, before, from) && from <= n
    ensures Looked(t, jobs, before, seen[t.runners[n].name := Seen(jobs, t.runners[n].name)], n + 1)
  {
  }

  lemma LookAtOne(t: Template, s: Sys, e: Event, before: map<string, JobStatus>, n: nat)
    requires ValidTemplate(t) && Inv(t, s) && s.pass.Active? && s.pass.account == Present && s.pass.next < |t.runners|
    requires SeenBelow(t, before, n) && n <= s.pass.next
    requires Looked(t, s.hist[s.jobsAt].jobs, before, s.pass.seen, s.pass.next)
    requires e == if t.runners[s.pass.next].name in s.hist[s.jobsAt].jobs then SeeJob(s.jobsAt) else MakeJob(s.jobsAt)
    ensures Enabled(t, s, e) && Inv(t, Next(t, s, e))
    ensures var s' := Next(t, s, e);
      && s'.pass == s.pass.(next := s.pass.next + 1, seen := s'.pass.seen) && s'.runAt == s.runAt && s'.jobsAt == s.jobsAt
      && s.hist <= s'.hist && Now(s').clock == Now(s).clock && s'.hist[s.jobsAt] == s.hist[s.jobsAt]
      && Looked(t, s.hist[s.jobsAt].jobs, before, s'.pass.seen, s'.pass.next)
  {
    hide Inv, Looked, SeenBelow, ValidTemplate;
    InvBounds(t, s);
    LookedOneMore(t, s.hist[s.jobsAt].jobs, before, s.pass.seen, s.pass.next, n);
    InvStep(t, s, e);
  }

  /** Between passes, any readable unfinished moment can start one that gets past its
      account check. */
  lemma StartPass(t: Template, s: Sys, at: nat) returns (tr: seq<Sys>)
    requires ValidTemplate(t) && Inv(t, s) && s.pass.Idle?
    requires s.runAt <= at < |s.hist| && !IsTerminal(s.hist[at].ctl.phase)
    ensures PathFrom(t, s, tr)
    ensures var s' := Last(tr);
      && s'.pass == Active(at, Now(s).clock, Present, 0, map[]) && s'.runAt == at && s'.jobsAt == s.jobsAt
      && s.hist <= s'.hist && Now(s').clock == Now(s).clock
  {
    hide Inv, ValidTemplate;
    InvBounds(t, s);
    var present := Environment(SetAccount(true));
    var s1 := Next(t, s, present);
    var tr1 := OneMoreStep(t, [s], present);
    var s2 := Next(t, s1, Begin(at));
    tr := OneMoreStep(t, tr1, Begin(at));
    if s2.pass.account == Unchecked {
      tr := OneMoreStep(t, tr, CheckAccount);
    }
  }

  /** Such a pass, over the oldest Jobs still readable, run to its end. */
  lemma RunPass(t: Template, s: Sys, at: nat) returns (tr: seq<Sys>, seen: map<string, JobStatus>)
    requires ValidTemplate(t) && Inv(t, s) && s.pass.Idle?
    requires s.runAt <= at < |s.hist| && !IsTerminal(s.hist[at].ctl.phase)
    ensures PathFrom(t, s, tr) && s.jobsAt < |s.hist|
    ensures SeenIn(t, s.hist[s.jobsAt].jobs, seen, |t.runners|)
    ensures var s', read := Last(tr), s.hist[at];
      && s'.pass.Idle? && s'.runAt == at && s'.jobsAt == s.jobsAt && s.hist < s'.hist && Now(s').clock == Now(s).clock
      && Now(s').ctl == StatusFor(Decide(t, read.ctl, read.entries, seen, Now(s).clock), read.ctl, Now(s).clock)
  {
    hide Inv, ValidTemplate, Decide, StatusFor, Path, Looked, SeenBelow;
    InvBounds(t, s);
    var start := StartPass(t, s, at);
    PathKeepsInv(t, start);
    InvBounds(t, Last(start));
    NothingSeen(t, s.hist[s.jobsAt].jobs);
    var looked := LookAtJobs(t, Last(start), map[], 0);
    PathKeepsInv(t, looked);
    InvBounds(t, Last(looked));
    var both := Joined(t, start, looked);
    tr := OneMoreStep(t, both, ApplyStatus);
    seen := Last(looked).pass.seen;
    assert Last(looked).hist[at] == s.hist[at];
  }

  lemma NothingSeen(t: Template, jobs: map<string, JobStatus>)
    ensures SeenIn(t, jobs, map[], 0) && SeenBelow(t, map[], 0)
  {
  }

  // ---------------------------------------------------- when a status is final

  /** No continuation ever changes the stored status. */
  ghost predicate FinalFrom(t: Template, s: Sys)
    requires |s.hist| > 0
  {
    forall tr :: PathFrom(t, s, tr) && |Last(tr).hist| > 0 ==> Now(Last(tr)).ctl == Now(s).ctl
  }

  /** A pass only ever works on a run it read as unfinished, and goes through the runners in
      order. */
  ghost predicate InOrder(t: Template, s: Sys) {
    s.pass.Active? ==>
      && s.pass.at < |s.hist| && !IsTerminal(s.hist[s.pass.at].ctl.phase)
      && SeenBelow(t, s.pass.seen, s.pass.next)
  }

  lemma InOrderStep(t: Template, s: Sys, e: Event)
    requires ValidTemplate(t) && Inv(t, s) && Enabled(t, s, e) && InOrder(t, s)
    ensures InOrder(t, Next(t, s, e))
  {
    hide Inv, WorldNext, WorldEnabled, DecisionOf, StatusFor;
    HistoryStepGrows(t, s, e);
  }

  lemma {:induction false} AlwaysInOrder(t: Template, tr: seq<Sys>, i: nat)
    requires ValidTemplate(t) && Behavior(t, tr) && i < |tr|
    ensures InOrder(t, tr[i])
  {
    hide Inv, Enabled, Next, ValidTemplate;
    if i > 0 {
      AlwaysInOrder(t, tr, i - 1);
      Invariant(t, tr, i - 1);
      assert Step(t, tr[i - 1], tr[i]);
      var e :| Enabled(t, tr[i - 1], e) && tr[i] == Next(t, tr[i - 1], e);
      InOrderStep(t, tr[i - 1], e);
    }
  }

  lemma {:induction false} CaughtUpOnPath(t: Template, tr: seq<Sys>)
    requires ValidTemplate(t) && Path(t, tr) && Inv(t, tr[0]) && CaughtUp(tr[0])
    ensures |tr| > 0 && CaughtUp(Last(tr)) && Now(Last(tr)).ctl == Now(tr[0]).ctl
    decreases |tr|
  {
    hide Inv, Enabled, Next, ValidTemplate, CaughtUp;
    CaughtUpHasMoments(tr[0]);
    if |tr| > 1 {
      var front := tr[..|tr| - 1];
      CaughtUpOnPath(t, front);
      CaughtUpHasMoments(Last(front));
      PathKeepsInv(t, front);
      assert Step(t, tr[|tr| - 2], tr[|tr| - 1]);
      var e :| Enabled(t, Last(front), e) && Last(tr) == Next(t, Last(front), e);
      CaughtUpStep(t, Last(front), e);
    }
  }

  lemma CaughtUpHasMoments(s: Sys)
    requires CaughtUp(s)
    ensures |s.hist| > 0
  {
  }

  /** An instant past every stored completion. */
  function LaterInstant(w: World): int {
    var done := if w.ctl.completionTime.Some? then w.ctl.completionTime.value else 0;
    (if done > w.clock then done else w.clock) + SECOND
  }

  /** From an unfinished readable moment the stored status can still be changed. */
  lemma StatusCanChange(t: Template, s: Sys, at: nat) returns (tr: seq<Sys>)
    requires ValidTemplate(t) && Inv(t, s) && s.pass.Idle?
    requires s.runAt <= at < |s.hist| && !IsTerminal(s.hist[at].ctl.phase) && IsTerminal(Now(s).ctl.phase)
    ensures PathFrom(t, s, tr) && |Last(tr).hist| > 0 && Now(Last(tr)).ctl != Now(s).ctl
  {
    hide Inv, ValidTemplate, Decide, Path, SeenIn;
    var wait := Environment(Tick(LaterInstant(Now(s))));
    OneStatePath(t, s);
    var first := OneMoreStep(t, [s], wait);
    PathKeepsInv(t, first);
    var rest, seen := RunPass(t, Last(first), at);
    tr := Joined(t, first, rest);
  }

  /** Between passes or during one: the stored terminal status is final exactly when no
      pass is in flight and every moment the run cache can still show is terminal. */
  lemma FinalExactlyWhenCaughtUp(t: Template, tr: seq<Sys>, i: nat)
    requires ValidTemplate(t) && Behavior(t, tr) && i < |tr| && |tr[i].hist| > 0 && IsTerminal(Now(tr[i]).ctl.phase)
    ensures CaughtUp(tr[i]) <==> FinalFrom(t, tr[i])
  {
    hide Behavior, Inv, ValidTemplate, Path;
    var s := tr[i];
    Invariant(t, tr, i);
    AlwaysInOrder(t, tr, i);
    InvBounds(t, s);
    if CaughtUp(s) {
      forall rest | PathFrom(t, s, rest) && |Last(rest).hist| > 0
        ensures Now(Last(rest)).ctl == Now(s).ctl
      {
        CaughtUpOnPath(t, rest);
      }
    } else {
      var first := [s];
      OneStatePath(t, s);
      if s.pass.Active? {
        first := OneMoreStep(t, first, Abandon);
      }
      PathKeepsInv(t, first);
      var at :| s.runAt <= at < |s.hist| && !IsTerminal(s.hist[at].ctl.phase);
      var rest := StatusCanChange(t, Last(first), at);
      var all := Joined(t, first, rest);
      assert PathFrom(t, s, all);
    }
  }

  // ------------------------------------------- when a run can become unfinished

  /** A pass that reads the run as of moment `at` is bound to finish it: it is finished
      already, too late by now, some Job has failed, or all results are in. */
  ghost predicate Spent(t: Template, s: Sys, at: nat)
    requires at < |s.hist| && s.jobsAt < |s.hist|
  {
    || IsTerminal(s.hist[at].ctl.phase)
    || PastDeadline(t, s.hist[at].ctl, Now(s).clock)
    || SomeJobFailed(s.hist[s.jobsAt].jobs)
    || (JobsDone(t, s.hist[s.jobsAt].jobs) && Complete(t, s.hist[at].entries))
  }

  ghost predicate AllSpent(t: Template, s: Sys) {
    && 0 < |s.hist| && s.jobsAt < |s.hist|
    && forall at :: s.runAt <= at < |s.hist| ==> Spent(t, s, at)
  }

  /** The pass in flight is bound to finish the run, if it gets to apply anything. */
  ghost predicate Bound(t: Template, s: Sys) {
    s.pass.Active? && s.pass.account != Missing ==>
      && s.pass.at < |s.hist| && s.jobsAt < |s.hist|
      && var jobs := s.hist[s.jobsAt].jobs;
         || PastDeadline(t, s.hist[s.pass.at].ctl, s.pass.now)
         || (exists r :: SureToFail(jobs, s.pass.seen, r))
         || (JobsDone(t, jobs) && AllJobsComplete(s.pass.seen) && Complete(t, s.hist[s.pass.at].entries))
  }

  /** The Job has failed, and the pass has seen that or has yet to look at it. */
  ghost predicate SureToFail(jobs: map<string, JobStatus>, seen: map<string, JobStatus>, r: string) {
    r in jobs && jobs[r].failed && (r in seen ==> seen[r].failed)
  }

  /** Both together: no continuation stores anything but a terminal phase. */
  ghost predicate Doomed(t: Template, s: Sys) {
    AllSpent(t, s) && Bound(t, s) && IsTerminal(Now(s).ctl.phase)
  }

  lemma JobsPersist(a: map<string, JobStatus>, b: map<string, JobStatus>, t: Template)
    requires JobsGrow(a, b)
    ensures SomeJobFailed(a) ==> SomeJobFailed(b)
    ensures JobsDone(t, a) ==> JobsDone(t, b)
  {
  }

  lemma GrowsOnHistory(t: Template, s: Sys, i: nat, j: nat)
    requires Inv(t, s) && i <= j < |s.hist|
    ensures Grows(s.hist[i], s.hist[j])
  {
  }

  lemma SpentStays(t: Template, s: Sys, s': Sys, at: nat)
    requires Inv(t, s) && Inv(t, s') && s.hist <= s'.hist && s.jobsAt <= s'.jobsAt < |s'.hist|
    requires at < |s.hist| && s.jobsAt < |s.hist| && Spent(t, s, at)
    ensures Spent(t, s', at)
  {
    hide Inv, Complete, JobsDone, SomeJobFailed, JobsGrow, EntriesGrow;
    GrowsOnHistory(t, s', |s.hist| - 1, |s'.hist| - 1);
    GrowsOnHistory(t, s', s.jobsAt, s'.jobsAt);
    JobsPersist(s.hist[s.jobsAt].jobs, s'.hist[s'.jobsAt].jobs, t);
  }

  /** A step that stores nothing but terminal phases leaves every readable moment spent. */
  lemma AllSpentStays(t: Template, s: Sys, e: Event)
    requires ValidTemplate(t) && Inv(t, s) && Enabled(t, s, e) && AllSpent(t, s)
    requires IsTerminal(Now(s).ctl.phase) && IsTerminal(Now(Next(t, s, e)).ctl.phase)
    ensures AllSpent(t, Next(t, s, e))
  {
    hide Inv, ValidTemplate, Spent, WorldNext, WorldEnabled, StatusFor, DecisionOf;
    var s' := Next(t, s, e);
    InvBounds(t, s);
    InvStep(t, s, e);
    InvBounds(t, s');
    HistoryStepGrows(t, s, e);
    forall at | s'.runAt <= at < |s'.hist|
      ensures Spent(t, s', at)
    {
      if at < |s.hist| {
        SpentStays(t, s, s', at);
      } else {
        TerminalIsSpent(t, s', at);
      }
    }
  }

  lemma TerminalIsSpent(t: Template, s: Sys, at: nat)
    requires at < |s.hist| && s.jobsAt < |s.hist| && IsTerminal(s.hist[at].ctl.phase)
    ensures Spent(t, s, at)
  {
  }

  lemma BoundStays(t: Template, s: Sys, e: Event)
    requires ValidTemplate(t) && Inv(t, s) && Enabled(t, s, e) && AllSpent(t, s) && Bound(t, s)
    requires e.Environment? || e.CheckAccount? || e.Abandon? || e.ApplyStatus?
    ensures Bound(t, Next(t, s, e))
  {
    hide Inv, ValidTemplate, WorldNext, WorldEnabled, StatusFor, DecisionOf, Complete, SureToFail, PastDeadline;
    InvBounds(t, s);
    HistoryStepGrows(t, s, e);
  }

  lemma BoundAtBegin(t: Template, s: Sys, at: nat)
    requires ValidTemplate(t) && Inv(t, s) && Enabled(t, s, Begin(at)) && AllSpent(t, s)
    ensures Bound(t, Next(t, s, Begin(at)))
  {
    hide Inv, ValidTemplate, Complete, PastDeadline;
    InvBounds(t, s);
    if SomeJobFailed(s.hist[s.jobsAt].jobs) {
      var r :| r in s.hist[s.jobsAt].jobs && s.hist[s.jobsAt].jobs[r].failed;
      assert SureToFail(s.hist[s.jobsAt].jobs, map[], r);
    }
    assert Spent(t, s, at);
  }

  /** A Job the pass is sure to find failed stays one when it looks at the next Job. */
  lemma SureToFailStays(t: Template, s: Sys, e: Event, r: string)
    requires ValidTemplate(t) && Inv(t, s) && Enabled(t, s, e) && (e.SeeJob? || e.MakeJob?) && s.jobsAt < |s.hist|
    requires SureToFail(s.hist[s.jobsAt].jobs, s.pass.seen, r)
    ensures var s' := Next(t, s, e);
      s'.jobsAt < |s'.hist| && s'.pass.Active? && SureToFail(s'.hist[s'.jobsAt].jobs, s'.pass.seen, r)
  {
    hide Inv, ValidTemplate, EntriesGrow;
    InvBounds(t, s);
    GrowsOnHistory(t, s, s.jobsAt, e.at);
  }

  lemma DoneStays(t: Template, s: Sys, e: Event)
    requires ValidTemplate(t) && Inv(t, s) && Enabled(t, s, e) && (e.SeeJob? || e.MakeJob?) && s.jobsAt < |s.hist|
    requires JobsDone(t, s.hist[s.jobsAt].jobs) && AllJobsComplete(s.pass.seen)
    ensures var s' := Next(t, s, e);
      && s'.jobsAt < |s'.hist| && s'.pass.Active?
      && JobsDone(t, s'.hist[s'.jobsAt].jobs) && AllJobsComplete(s'.pass.seen)
  {
    hide Inv, ValidTemplate, EntriesGrow;
    InvBounds(t, s);
    GrowsOnHistory(t, s, s.jobsAt, e.at);
    JobsPersist(s.hist[s.jobsAt].jobs, s.hist[e.at].jobs, t);
    assert JobsDone(t, s.hist[e.at].jobs);
  }

  lemma BoundAtJob(t: Template, s: Sys, e: Event)
    requires ValidTemplate(t) && Inv(t, s) && Enabled(t, s, e) && Bound(t, s) && (e.SeeJob? || e.MakeJob?)
    ensures Bound(t, Next(t, s, e))
  {
    hide Inv, ValidTemplate, Complete, SureToFail, PastDeadline, JobsDone, AllJobsComplete;
    InvBounds(t, s);
    HistoryStepGrows(t, s, e);
    var jobs := s.hist[s.jobsAt].jobs;
    if r :| SureToFail(jobs, s.pass.seen, r) {
      SureToFailStays(t, s, e, r);
    }
    if JobsDone(t, jobs) && AllJobsComplete(s.pass.seen) {
      DoneStays(t, s, e);
    }
  }

  /** What a bound pass applies is terminal. */
  lemma BoundApplies(t: Template, s: Sys)
    requires ValidTemplate(t) && Inv(t, s) && Enabled(t, s, ApplyStatus) && Bound(t, s)
    ensures IsTerminal(Now(Next(t, s, ApplyStatus)).ctl.phase)
  {
    hide Complete, SummaryOf, AllGood, Monotone, Sound, Locked, Stable, PastDeadline;
    if r :| SureToFail(s.hist[s.jobsAt].jobs, s.pass.seen, r) {
      FailedJobSeen(t, s, r);
    }
  }

  lemma FailedJobSeen(t: Template, s: Sys, r: string)
    requires ValidTemplate(t) && Inv(t, s) && Enabled(t, s, ApplyStatus) && s.jobsAt < |s.hist|
    requires SureToFail(s.hist[s.jobsAt].jobs, s.pass.seen, r)
    ensures s.pass.account == Present ==> SomeJobFailed(s.pass.seen)
  {
    hide Sound, Locked, Stable, Monotone, Complete;
    assert GoodWorld(t, s.hist[s.jobsAt]);
  }

  lemma DoomedStep(t: Template, s: Sys, e: Event)
    requires ValidTemplate(t) && Inv(t, s) && Enabled(t, s, e) && Doomed(t, s)
    ensures Doomed(t, Next(t, s, e))
  {
    hide Inv, ValidTemplate, AllSpent, Bound, WorldEnabled;
    InvBounds(t, s);
    StatusAfterStep(t, s, e);
    AllSpentStays(t, s, e);
    match e
    case Begin(at) => BoundAtBegin(t, s, at);
    case SeeJob(_) => BoundAtJob(t, s, e);
    case MakeJob(_) => BoundAtJob(t, s, e);
    case _ => BoundStays(t, s, e);
  }

  lemma StatusAfterStep(t: Template, s: Sys, e: Event)
    requires ValidTemplate(t) && Inv(t, s) && Enabled(t, s, e) && Bound(t, s) && |s.hist| > 0 && IsTerminal(Now(s).ctl.phase)
    ensures |Next(t, s, e).hist| > 0 && IsTerminal(Now(Next(t, s, e)).ctl.phase)
  {
    hide Inv, ValidTemplate, Bound, WorldEnabled, Decide, DecisionOf, StatusFor;
    if e.ApplyStatus? { BoundApplies(t, s); }
  }

  lemma {:induction false} DoomedOnPath(t: Template, tr: seq<Sys>)
    requires ValidTemplate(t) && Path(t, tr) && Inv(t, tr[0]) && Doomed(t, tr[0])
    ensures |tr| > 0 && Doomed(t, Last(tr))
    decreases |tr|
  {
    hide Inv, Enabled, Next, ValidTemplate, Doomed;
    if |tr| > 1 {
      var front := tr[..|tr| - 1];
      DoomedOnPath(t, front);
      PathKeepsInv(t, front);
      StartsNonempty(t, Last(front));
      assert Step(t, tr[|tr| - 2], tr[|tr| - 1]);
      var e :| Enabled(t, Last(front), e) && Last(tr) == Next(t, Last(front), e);
      DoomedStep(t, Last(front), e);
    }
  }

  /** No continuation ever stores an unfinished phase again. */
  ghost predicate StaysFinished(t: Template, s: Sys) {
    forall tr :: PathFrom(t, s, tr) && |Last(tr).hist| > 0 ==> IsTerminal(Now(Last(tr)).ctl.phase)
  }

  lemma SeenTellsJobs(t: Template, jobs: map<string, JobStatus>, seen: map<string, JobStatus>)
    requires SeenIn(t, jobs, seen, |t.runners|)
    ensures SomeJobFailed(seen) ==> SomeJobFailed(jobs)
    ensures AllJobsComplete(seen) ==> JobsDone(t, jobs)
  {
    if r :| r in seen && seen[r].failed {
      assert jobs[r].failed;
    }
    if AllJobsComplete(seen) {
      forall i | 0 <= i < |t.runners|
        ensures t.runners[i].name in jobs && jobs[t.runners[i].name].complete
      {
        assert seen[t.runners[i].name].complete;
      }
    }
  }

  lemma UnspentContinues(t: Template, s: Sys, at: nat, seen: map<string, JobStatus>)
    requires ValidTemplate(t) && at < |s.hist| && s.jobsAt < |s.hist| && !Spent(t, s, at)
    requires SeenIn(t, s.hist[s.jobsAt].jobs, seen, |t.runners|)
    ensures Decide(t, s.hist[at].ctl, s.hist[at].entries, seen, Now(s).clock) == Continue
  {
    hide Complete, PastDeadline, SomeJobFailed, AllJobsComplete, JobsDone, SeenIn;
    SeenTellsJobs(t, s.hist[s.jobsAt].jobs, seen);
  }

  /** A pass in flight that gets past its account check, run to its end. */
  lemma FinishPass(t: Template, s: Sys) returns (tr: seq<Sys>, seen: map<string, JobStatus>)
    requires ValidTemplate(t) && Inv(t, s) && InOrder(t, s) && s.pass.Active? && s.pass.account != Missing
    ensures PathFrom(t, s, tr) && s.jobsAt < |s.hist| && s.pass.at < |s.hist| && |Last(tr).hist| > 0
    ensures Looked(t, s.hist[s.jobsAt].jobs, s.pass.seen, seen, |t.runners|)
    ensures var read := s.hist[s.pass.at];
      Now(Last(tr)).ctl == StatusFor(Decide(t, read.ctl, read.entries, seen, s.pass.now), read.ctl, s.pass.now)
  {
    hide Inv, ValidTemplate, Decide, StatusFor, Path, Looked, SeenBelow;
    InvBounds(t, s);
    OneStatePath(t, s);
    var start := [s];
    if s.pass.account == Unchecked {
      start := OneMoreStep(t, start, Environment(SetAccount(true)));
      start := OneMoreStep(t, start, CheckAccount);
    }
    PathKeepsInv(t, start);
    InvBounds(t, Last(start));
    PassLooked(t, s);
    var looked := LookAtJobs(t, Last(start), s.pass.seen, s.pass.next);
    PathKeepsInv(t, looked);
    InvBounds(t, Last(looked));
    var both := Joined(t, start, looked);
    tr := OneMoreStep(t, both, ApplyStatus);
    seen := Last(looked).pass.seen;
    assert Last(looked).hist[s.pass.at] == s.hist[s.pass.at];
  }

  lemma PassLooked(t: Template, s: Sys)
    requires Inv(t, s) && s.pass.Active? && s.jobsAt < |s.hist|
    ensures Looked(t, s.hist[s.jobsAt].jobs, s.pass.seen, s.pass.seen, s.pass.next)
  {
    hide AllGood, Monotone, Sound, Locked, Stable;
  }

  /** What a pass saw complete or failed is so as far as the Job cache has come. */
  lemma SeenIsTrue(t: Template, s: Sys)
    requires Inv(t, s) && s.pass.Active?
    ensures s.jobsAt < |s.hist|
    ensures var jobs := s.hist[s.jobsAt].jobs; forall r :: r in s.pass.seen ==>
      && (s.pass.seen[r].complete ==> r in jobs && jobs[r].complete)
      && (s.pass.seen[r].failed ==> r in jobs && jobs[r].failed)
  {
    hide AllGood, Monotone, Sound, Locked, Stable;
  }

  lemma FailedIsSure(t: Template, jobs: map<string, JobStatus>, before: map<string, JobStatus>, seen: map<string, JobStatus>)
    requires Looked(t, jobs, before, seen, |t.runners|) && SomeJobFailed(seen)
    requires forall r :: r in before && before[r].failed ==> r in jobs && jobs[r].failed
    ensures exists r :: SureToFail(jobs, before, r)
  {
    var r :| r in seen && seen[r].failed;
    assert SureToFail(jobs, before, r);
  }

  lemma UnboundContinues(t: Template, s: Sys, seen: map<string, JobStatus>)
    requires Inv(t, s) && s.pass.Active? && s.pass.at < |s.hist| && s.jobsAt < |s.hist| && !Bound(t, s)
    requires Looked(t, s.hist[s.jobsAt].jobs, s.pass.seen, seen, |t.runners|)
    ensures Decide(t, s.hist[s.pass.at].ctl, s.hist[s.pass.at].entries, seen, s.pass.now) == Continue
  {
    hide Inv, Complete, PastDeadline;
    SeenIsTrue(t, s);
    var jobs, before := s.hist[s.jobsAt].jobs, s.pass.seen;
    if SomeJobFailed(seen) {
      FailedIsSure(t, jobs, before, seen);
    }
    if AllJobsComplete(seen) {
      assert forall r :: r in before ==> seen[r] == before[r];
      forall i | 0 <= i < |t.runners|
        ensures t.runners[i].name in jobs && jobs[t.runners[i].name].complete
      {
        assert seen[t.runners[i].name].complete;
      }
    }
  }

  /** From a state that is not doomed, some continuation stores Running. */
  lemma Revival(t: Template, s: Sys) returns (tr: seq<Sys>)
    requires ValidTemplate(t) && Inv(t, s) && InOrder(t, s) && !(AllSpent(t, s) && Bound(t, s))
    ensures PathFrom(t, s, tr) && |Last(tr).hist| > 0 && Now(Last(tr)).ctl.phase == Running
  {
    hide Inv, ValidTemplate, Path, Spent, Decide, Bound, InOrder;
    InvBounds(t, s);
    OneStatePath(t, s);
    var seen;
    if !Bound(t, s) {
      UnboundIsActive(t, s);
      tr, seen := FinishPass(t, s);
      UnboundContinues(t, s, seen);
    } else {
      var at :| s.runAt <= at < |s.hist| && !Spent(t, s, at);
      if IsTerminal(s.hist[at].ctl.phase) { TerminalIsSpent(t, s, at); }
      var first := [s];
      if s.pass.Active? {
        first := OneMoreStep(t, first, Abandon);
      }
      PathKeepsInv(t, first);
      SpentBetweenPasses(t, s, Last(first), at);
      tr, seen := RunPass(t, Last(first), at);
      UnspentContinues(t, Last(first), at, seen);
      tr := Joined(t, first, tr);
    }
  }

  lemma UnboundIsActive(t: Template, s: Sys)
    requires !Bound(t, s)
    ensures s.pass.Active? && s.pass.account != Missing
  {
  }

  lemma SpentBetweenPasses(t: Template, s: Sys, s': Sys, at: nat)
    requires s'.hist == s.hist && s'.jobsAt == s.jobsAt && at < |s.hist| && s.jobsAt < |s.hist|
    ensures Spent(t, s, at) <==> Spent(t, s', at)
  {
  }

  /** A finished run can be put back to Running by some continuation, unless a pass that
      reads it at any moment still readable is bound to finish it - that moment is finished,
      past its deadline, or as far as the Job cache has come some Job has failed or all
      results are in - and so is the pass in flight, if any. */
  lemma RevivedExactlyWhenUnspent(t: Template, tr: seq<Sys>, i: nat)
    requires ValidTemplate(t) && Behavior(t, tr) && i < |tr|
    requires |tr[i].hist| > 0 && IsTerminal(Now(tr[i]).ctl.phase)
    ensures AllSpent(t, tr[i]) && Bound(t, tr[i]) <==> StaysFinished(t, tr[i])
  {
    hide Behavior, Inv, ValidTemplate, Path, AllSpent, Bound, InOrder;
    var s := tr[i];
    Invariant(t, tr, i);
    AlwaysInOrder(t, tr, i);
    if AllSpent(t, s) && Bound(t, s) {
      forall rest | PathFrom(t, s, rest) && |Last(rest).hist| > 0
        ensures IsTerminal(Now(Last(rest)).ctl.phase)
      {
        DoomedOnPath(t, rest);
      }
    } else {
      var rest := Revival(t, s);
      assert PathFrom(t, s, rest) && Now(Last(rest)).ctl.phase == Running;
    }
  }

  // -------------------------------------------------------------- by the cause

  /** A Job has failed as far as the Job cache has come, and every moment from `n` on is
      stored as Error. */
  ghost predicate FailedFor(t: Template, s: Sys, n: nat) {
    && n < |s.hist| && s.jobsAt < |s.hist| && SomeJobFailed(s.hist[s.jobsAt].jobs)
    && (forall k :: n <= k < |s.hist| ==> s.hist[k].ctl.phase == Error)
    && (s.pass.Active? ==> exists r :: SureToFail(s.hist[s.jobsAt].jobs, s.pass.seen, r))
  }

  lemma FailedForStep(t: Template, s: Sys, e: Event, n: nat)
    requires ValidTemplate(t) && Inv(t, s) && Enabled(t, s, e) && FailedFor(t, s, n)
    ensures FailedFor(t, Next(t, s, e), n)
  {
    hide Inv, ValidTemplate, SureToFail, WorldEnabled, WorldNext, Decide, StatusFor, SomeJobFailed;
    InvBounds(t, s);
    HistoryStepGrows(t, s, e);
    StepHistory(t, s, e) by { BaseOf(t, s); }
    var s' := Next(t, s, e);
    if e.ApplyStatus? {
      FailedApplies(t, s);
    } else if e.Begin? {
      FirstFailed(s.hist[s.jobsAt].jobs);
    } else if e.SeeJob? || e.MakeJob? {
      var r :| SureToFail(s.hist[s.jobsAt].jobs, s.pass.seen, r);
      SureToFailStays(t, s, e, r);
      GrowsOnHistory(t, s, s.jobsAt, e.at);
      JobsPersist(s.hist[s.jobsAt].jobs, s.hist[e.at].jobs, t);
    }
  }

  lemma BaseOf(t: Template, s: Sys)
    requires Inv(t, s)
    ensures Base(t, s)
  {
  }

  lemma FirstFailed(jobs: map<string, JobStatus>)
    requires SomeJobFailed(jobs)
    ensures exists r :: SureToFail(jobs, map[], r)
  {
    var r :| r in jobs && jobs[r].failed;
    assert SureToFail(jobs, map[], r);
  }

  lemma FailedApplies(t: Template, s: Sys)
    requires ValidTemplate(t) && Inv(t, s) && Enabled(t, s, ApplyStatus) && s.jobsAt < |s.hist|
    requires exists r :: SureToFail(s.hist[s.jobsAt].jobs, s.pass.seen, r)
    ensures Now(Next(t, s, ApplyStatus)).ctl.phase == Error
  {
    hide AllGood, Monotone, Sound, Locked, Stable, SureToFail, SomeJobFailed;
    var r :| SureToFail(s.hist[s.jobsAt].jobs, s.pass.seen, r);
    FailedJobSeen(t, s, r);
  }

  lemma FailureApplied(t: Template, s: Sys)
    requires ValidTemplate(t) && Inv(t, s) && Enabled(t, s, ApplyStatus) && DecisionOf(t, s) == JOB_FAILED
    ensures FailedFor(t, Next(t, s, ApplyStatus), |s.hist|)
  {
    hide AllGood, Monotone, Sound, Locked, Stable, Complete, SummaryOf;
    assert Completed in JOB_FAILED.extra && Completed !in PAST_DEADLINE.extra && Completed !in MISSING_ACCOUNT.extra;
    assert SomeJobFailed(s.pass.seen);
    var r :| r in s.pass.seen && s.pass.seen[r].failed;
    assert r in s.hist[s.jobsAt].jobs && s.hist[s.jobsAt].jobs[r].failed;
  }

  /** An Error stored because a Job failed survives any lag: the Job cache never goes back
      behind that failure, so every later pass stores Error again. */
  lemma {:induction false} FailedJobErrorIsFinal(t: Template, tr: seq<Sys>, i: nat, j: nat)
    requires ValidTemplate(t) && Behavior(t, tr) && i < j < |tr|
    requires |tr[i].hist| > 0 && Enabled(t, tr[i], ApplyStatus) && tr[i + 1] == Next(t, tr[i], ApplyStatus)
    requires DecisionOf(t, tr[i]) == JOB_FAILED
    ensures FailedFor(t, tr[j], |tr[i].hist|)
    decreases j
  {
    hide Inv, Enabled, Next, ValidTemplate, FailedFor, DecisionOf;
    if j == i + 1 {
      Invariant(t, tr, i);
      FailureApplied(t, tr[i]);
    } else {
      FailedJobErrorIsFinal(t, tr, i, j - 1);
      Invariant(t, tr, j - 1);
      assert Step(t, tr[j - 1], tr[j]);
      var e :| Enabled(t, tr[j - 1], e) && tr[j] == Next(t, tr[j - 1], e);
      FailedForStep(t, tr[j - 1], e, |tr[i].hist|);
    }
  }
}
