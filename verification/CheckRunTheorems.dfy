/** What holds over every behavior of a CheckRun. */
module CheckRunTheorems {
  import opened Types
  import opened Aggregation
  import opened CheckRunController
  import opened CheckRunProtocol

  // ------------------------------------------------------------ every behavior

  /** At the server, every pod that exited 0 has its entry, and every entry is a pod's
      full result set; so once all Jobs are complete the results are complete too. */
  lemma ResultsLandBeforeCompletion(t: Template, tr: seq<Sys>, i: nat, n: nat, r: string)
    requires ValidTemplate(t) && Behavior(t, tr) && i < |tr| && n < |tr[i].hist|
    ensures var w := tr[i].hist[n];
      && Exited(w, r) <= PodsOf(w.entries, r).Keys && |PodsOf(w.entries, r)| >= |Exited(w, r)|
      && (forall p :: p in PodsOf(w.entries, r) ==> Backed(t, w, r, p))
      && (JobsDone(t, w.jobs) ==> Complete(t, w.entries))
  {
    hide Behavior, Sound, Locked, Stable, Monotone, SeesTruly;
    Invariant(t, tr, i);
    var w := tr[i].hist[n];
    ExitedPodsReported(t, w, r);
    if JobsDone(t, w.jobs) {
      DoneJobsMeanComplete(t, w);
    }
  }

  /** A pass that saw every Job complete only waits for results when it read the run at
      an older moment than the Jobs. */
  lemma WaitingNeedsLag(t: Template, tr: seq<Sys>, i: nat)
    requires ValidTemplate(t) && Behavior(t, tr) && i < |tr|
    requires var s := tr[i]; |s.hist| > 0 && Enabled(t, s, ApplyStatus) && s.pass.account == Present
    requires AllJobsComplete(tr[i].pass.seen) && DecisionOf(t, tr[i]) == Continue
    ensures tr[i].runAt < tr[i].jobsAt
  {
    hide Behavior, Sound, Locked, Stable, GoodWorld, Complete;
    Invariant(t, tr, i);
    var s := tr[i];
    if s.jobsAt <= s.runAt {
      assert JobsDone(t, s.hist[s.jobsAt].jobs);
      ReadForward(t, s, s.jobsAt, s.runAt);
      DoneJobsMeanComplete(t, s.hist[s.runAt]);
      assert false;
    }
  }

  /** However far the caches lag, a stored verdict is only ever followed by terminal
      phases, and Failed never becomes Succeeded. */
  lemma VerdictsAreStable(t: Template, tr: seq<Sys>, i: nat, n: nat, m: nat)
    requires ValidTemplate(t) && Behavior(t, tr) && i < |tr| && n <= m < |tr[i].hist|
    ensures Decided(tr[i].hist[n]) ==> IsTerminal(tr[i].hist[m].ctl.phase)
    ensures tr[i].hist[n].ctl.phase == Failed ==> tr[i].hist[m].ctl.phase != Succeeded
  {
    hide Behavior, Base, Sound, Locked;
    Invariant(t, tr, i);
  }

  /** A verdict is only stored once every runner's Job is complete, and none ever fails. */
  lemma VerdictNeedsEveryJob(t: Template, tr: seq<Sys>, i: nat)
    requires ValidTemplate(t) && Behavior(t, tr) && i < |tr| && |tr[i].hist| > 0 && EverDecided(tr[i].hist)
    ensures JobsDone(t, Now(tr[i]).jobs) && !SomeJobFailed(Now(tr[i]).jobs)
  {
    hide Behavior, Sound, Stable, Complete, SomeFails;
    Invariant(t, tr, i);
    var s := tr[i];
    assert Grows(s.hist[s.jobsAt], Now(s));
    assert GoodWorld(t, Now(s));
  }

  /** A stored verdict came within the run's timeout. */
  lemma VerdictsAreOnTime(t: Template, tr: seq<Sys>, i: nat, n: nat)
    requires ValidTemplate(t) && Behavior(t, tr) && i < |tr| && n < |tr[i].hist| && Decided(tr[i].hist[n])
    ensures var ctl := tr[i].hist[n].ctl;
      && ctl.startTime.Some? && ctl.completionTime.Some?
      && ctl.completionTime.value - ctl.startTime.value <= if t.timeout.Some? then t.timeout.value else 600 * SECOND
  {
    hide Behavior, Base, Stable, Locked;
    Invariant(t, tr, i);
    assert OnTime(t, tr[i].hist[n]);
  }

  // ------------------------------------------------------- fresh run reads

  /** Every pass reads the run as it is when the pass begins; Job reads may still lag. */
  ghost predicate FreshStep(t: Template, s: Sys, s': Sys) {
    |s.hist| > 0 && exists e :: Enabled(t, s, e) && s' == Next(t, s, e) && (e.Begin? ==> e.at == |s.hist| - 1)
  }

  ghost predicate FreshBehavior(t: Template, tr: seq<Sys>) {
    && |tr| > 0 && Initial(tr[0])
    && forall i :: 0 <= i < |tr| - 1 ==> FreshStep(t, tr[i], tr[i + 1])
  }

  lemma FreshIsBehavior(t: Template, tr: seq<Sys>)
    requires FreshBehavior(t, tr)
    ensures Behavior(t, tr)
  {
    hide Enabled, Next, Initial;
    forall i | 0 <= i < |tr| - 1
      ensures Step(t, tr[i], tr[i + 1])
    {
      assert FreshStep(t, tr[i], tr[i + 1]);
    }
  }

  /** `b` may follow `a` as the stored status: a finished run keeps its status, a
      started run its start time. */
  predicate Follows(a: ControllerStatus, b: ControllerStatus) {
    && (IsTerminal(a.phase) ==> b == a)
    && (a.startTime.Some? ==> b.startTime == a.startTime)
  }

  ghost predicate Settled(hist: seq<World>) {
    forall n, m :: 0 <= n <= m < |hist| ==> Follows(hist[n].ctl, hist[m].ctl)
  }

  /** While a pass is in flight the stored status is the one it read. */
  ghost predicate FreshInv(t: Template, s: Sys) {
    && Inv(t, s) && Settled(s.hist)
    && (s.pass.Active? ==> Now(s).ctl == s.hist[s.runAt].ctl && !IsTerminal(Now(s).ctl.phase))
  }

  lemma SettledExtends(hist: seq<World>, w: World)
    requires |hist| > 0 && Settled(hist) && Follows(hist[|hist| - 1].ctl, w.ctl)
    ensures Settled(hist + [w])
  {
    var longer := hist + [w];
    forall n, m | 0 <= n <= m < |longer|
      ensures Follows(longer[n].ctl, longer[m].ctl)
    {
      if n < |hist| == m {
        assert Follows(hist[n].ctl, hist[|hist| - 1].ctl);
      }
    }
  }

  lemma FreshStepKeeps(t: Template, s: Sys, e: Event)
    requires ValidTemplate(t) && FreshInv(t, s) && Enabled(t, s, e) && (e.Begin? ==> e.at == |s.hist| - 1)
    ensures FreshInv(t, Next(t, s, e))
  {
    hide GoodWorld, AllGood, Monotone, Sound, Locked, Stable, SeesTruly, Decide, DecisionOf, WorldNext, WorldEnabled;
    InvStep(t, s, e);
    StepHistory(t, s, e);
    var s' := Next(t, s, e);
    if e.Environment? || e.MakeJob? || e.ApplyStatus? {
      assert s'.hist == s.hist + [Now(s')];
      assert e.ApplyStatus? ==> Follows(Now(s).ctl, Now(s').ctl) by {
        if e.ApplyStatus? {
          StartKept(t, s);
        }
      }
      SettledExtends(s.hist, Now(s'));
    }
  }

  lemma StartKept(t: Template, s: Sys)
    requires FreshInv(t, s) && Enabled(t, s, ApplyStatus)
    ensures Follows(Now(s).ctl, Now(Next(t, s, ApplyStatus)).ctl)
  {
    hide AllGood, Monotone, SeesTruly, Locked, Stable, Decide;
    assert OnTime(t, s.hist[|s.hist| - 1]);
  }

  lemma {:induction false} FreshInvariant(t: Template, tr: seq<Sys>, i: nat)
    requires ValidTemplate(t) && FreshBehavior(t, tr) && i < |tr|
    ensures FreshInv(t, tr[i])
  {
    hide Inv, Enabled, Next, ValidTemplate;
    if i == 0 {
      InvInitial(t, tr[0]);
    } else {
      FreshInvariant(t, tr, i - 1);
      assert FreshStep(t, tr[i - 1], tr[i]);
      var e :| Enabled(t, tr[i - 1], e) && tr[i] == Next(t, tr[i - 1], e) && (e.Begin? ==> e.at == |tr[i - 1].hist| - 1);
      FreshStepKeeps(t, tr[i - 1], e);
    }
  }

  /** With fresh run reads every terminal phase, Error included, is final, and the
      start time never moves once set. */
  lemma TerminalIsFinal(t: Template, tr: seq<Sys>, i: nat, n: nat, m: nat)
    requires ValidTemplate(t) && FreshBehavior(t, tr) && i < |tr| && n <= m < |tr[i].hist|
    ensures IsTerminal(tr[i].hist[n].ctl.phase) ==> tr[i].hist[m].ctl == tr[i].hist[n].ctl
    ensures tr[i].hist[n].ctl.startTime.Some? ==> tr[i].hist[m].ctl.startTime == tr[i].hist[n].ctl.startTime
  {
    hide FreshBehavior, Inv;
    FreshInvariant(t, tr, i);
    assert Follows(tr[i].hist[n].ctl, tr[i].hist[m].ctl);
  }

  /** So with fresh run reads a finished run stays finished... */
  lemma FinishedStaysFinished(t: Template, tr: seq<Sys>, i: nat, n: nat, m: nat)
    requires ValidTemplate(t) && FreshBehavior(t, tr) && i < |tr| && n <= m < |tr[i].hist|
    ensures KeepsFinished(tr[i].hist[n].ctl.phase, tr[i].hist[m].ctl.phase)
  {
    hide FreshBehavior;
    TerminalIsFinal(t, tr, i, n, m);
  }

  /** ...and with lagging ones only Error can ever be left. */
  lemma OnlyErrorIsLeft(t: Template, tr: seq<Sys>, i: nat, n: nat, m: nat)
    requires ValidTemplate(t) && Behavior(t, tr) && i < |tr| && n <= m < |tr[i].hist|
    ensures !KeepsFinished(tr[i].hist[n].ctl.phase, tr[i].hist[m].ctl.phase) ==> tr[i].hist[n].ctl.phase == Error
  {
    hide Behavior;
    VerdictsAreStable(t, tr, i, n, m);
  }

  lemma {:induction false} HistoryOnlyGrows(t: Template, tr: seq<Sys>, i: nat, j: nat)
    requires ValidTemplate(t) && Behavior(t, tr) && i <= j < |tr|
    ensures tr[i].hist <= tr[j].hist
  {
    hide Inv, Enabled, Next, ValidTemplate, Initial;
    if i < j {
      HistoryOnlyGrows(t, tr, i, j - 1);
      Invariant(t, tr, j - 1);
      assert Step(t, tr[j - 1], tr[j]);
      var e :| Enabled(t, tr[j - 1], e) && tr[j] == Next(t, tr[j - 1], e);
      HistoryStepGrows(t, tr[j - 1], e);
    }
  }

  lemma HistoryStepGrows(t: Template, s: Sys, e: Event)
    requires ValidTemplate(t) && Inv(t, s) && Enabled(t, s, e)
    ensures s.hist <= Next(t, s, e).hist
  {
    hide GoodWorld, AllGood, Monotone, Sound, Locked, Stable, SeesTruly, Enabled, Next;
    StepHistory(t, s, e);
  }

  /** A pass that applied Running asked to be woken after a delay; a later pass that
      starts after that delay and gets as far as applying a status ends the run. */
  lemma TerminalByWakeUp(t: Template, tr: seq<Sys>, i: nat, j: nat)
    requires ValidTemplate(t) && FreshBehavior(t, tr) && i < j < |tr|
    requires |tr[i].hist| > 0 && Enabled(t, tr[i], ApplyStatus) && tr[i + 1] == Next(t, tr[i], ApplyStatus)
    requires DecisionOf(t, tr[i]) == Continue
    requires |tr[j].hist| > 0 && Enabled(t, tr[j], ApplyStatus)
    requires tr[j].pass.now >= tr[i].pass.now + RequeueDelay(t, tr[i].hist[tr[i].pass.at].ctl, tr[i].pass.now)
    ensures DecisionOf(t, tr[j]).Finish?
    ensures IsTerminal(Now(Next(t, tr[j], ApplyStatus)).ctl.phase)
  {
    hide FreshBehavior, GoodWorld, AllGood, Monotone, Sound, Locked, Stable, SeesTruly, SomeJobFailed, AllJobsComplete, Complete, Verdict;
    var s, u := tr[i], tr[j];
    FreshInvariant(t, tr, i);
    FreshInvariant(t, tr, j);
    FreshIsBehavior(t, tr);
    HistoryOnlyGrows(t, tr, i + 1, j);
    var n := |s.hist|;
    assert u.hist[n].ctl == StatusFor(Continue, s.hist[s.pass.at].ctl, s.pass.now);
    assert Follows(u.hist[n].ctl, u.hist[|u.hist| - 1].ctl);
    var read := u.hist[u.runAt].ctl;
    assert read.startTime == Some(Stored(StartOf(s.hist[s.pass.at].ctl, s.pass.now)));
  }

  // ------------------------------------- when a terminal status is out of reach

  /** No pass is in flight and every moment the run cache can still deliver is terminal. */
  ghost predicate CaughtUp(s: Sys) {
    && |s.hist| > 0 && s.runAt < |s.hist| && s.pass.Idle?
    && forall at :: s.runAt <= at < |s.hist| ==> IsTerminal(s.hist[at].ctl.phase)
  }

  lemma CaughtUpStep(t: Template, s: Sys, e: Event)
    requires ValidTemplate(t) && Inv(t, s) && Enabled(t, s, e) && CaughtUp(s)
    ensures CaughtUp(Next(t, s, e)) && Now(Next(t, s, e)).ctl == Now(s).ctl
  {
    hide GoodWorld, AllGood, Monotone, Sound, Locked, Stable, SeesTruly, WorldNext, WorldEnabled;
    InvStep(t, s, e);
    StepHistory(t, s, e);
    var s' := Next(t, s, e);
    if e.Environment? {
      assert s'.hist == s.hist + [Now(s')];
    }
  }

  // ----------------------------------------------------------------- conditions

  ghost predicate NoRunnerError(ctl: ControllerStatus) {
    RunnerError !in ctl.conditions.Values
  }

  /** Finishing sets Completed last, so a failed Job's reason is never what is stored. */
  lemma FinishDropsRunnerError(d: Decision, ctl: ControllerStatus, now: int)
    requires NoRunnerError(ctl) && (d.Finish? ==> forall c :: c in d.extra && d.extra[c] == RunnerError ==> c == Completed)
    ensures NoRunnerError(StatusFor(d, ctl, now))
  {
  }

  lemma DecidedReasons(t: Template, s: Sys)
    requires |s.hist| > 0 && Enabled(t, s, ApplyStatus)
    ensures var d := DecisionOf(t, s); d.Finish? ==> forall c :: c in d.extra && d.extra[c] == RunnerError ==> c == Completed
  {
    hide Complete, SummaryOf, PastDeadline, SomeJobFailed, AllJobsComplete;
  }

  /** No stored status of any history ever carries the reason RunnerError. */
  lemma {:induction false} RunnerErrorNeverStored(t: Template, tr: seq<Sys>, i: nat, n: nat)
    requires ValidTemplate(t) && Behavior(t, tr) && i < |tr| && n < |tr[i].hist|
    ensures NoRunnerError(tr[i].hist[n].ctl)
    decreases i
  {
    hide Inv, Enabled, Next, ValidTemplate, NoRunnerError;
    if i == 0 {
      InitialReasons(tr[0]);
    } else {
      var s := tr[i - 1];
      Invariant(t, tr, i - 1);
      assert Step(t, s, tr[i]);
      var e :| Enabled(t, s, e) && tr[i] == Next(t, s, e);
      forall k | 0 <= k < |s.hist|
        ensures NoRunnerError(s.hist[k].ctl)
      {
        RunnerErrorNeverStored(t, tr, i - 1, k);
      }
      ReasonsStep(t, s, e, n);
    }
  }

  lemma InitialReasons(s: Sys)
    requires Initial(s)
    ensures NoRunnerError(s.hist[0].ctl)
  {
  }

  lemma ReasonsStep(t: Template, s: Sys, e: Event, n: nat)
    requires ValidTemplate(t) && Inv(t, s) && Enabled(t, s, e) && n < |Next(t, s, e).hist|
    requires forall k :: 0 <= k < |s.hist| ==> NoRunnerError(s.hist[k].ctl)
    ensures NoRunnerError(Next(t, s, e).hist[n].ctl)
  {
    hide GoodWorld, AllGood, Monotone, Sound, Locked, Stable, SeesTruly, NoRunnerError, WorldNext, WorldEnabled, StatusFor, DecisionOf;
    StepHistory(t, s, e);
    if e.ApplyStatus? && n == |s.hist| {
      DecidedReasons(t, s);
      FinishDropsRunnerError(DecisionOf(t, s), s.hist[s.pass.at].ctl, s.pass.now);
    }
  }
}
