/** What the stored status of a CheckRun can look like, which pass stored it, and why. */
module CheckRunStatuses {
  import opened Types
  import opened RunnerPod
  import opened Aggregation
  import opened CheckRunController
  import opened CheckRunProtocol
  import opened CheckRunTheorems

  // ------------------------------------------------------- the pass in flight

  /** Some moment since `from` shows the ServiceAccount present, or absent. */
  ghost predicate AccountWas(hist: seq<World>, from: nat, present: bool) {
    exists k: nat :: from <= k < |hist| && hist[k].accountPresent == present
  }

  /** A pass works on a run it read as unfinished; its clock lies between that moment and
      now; and it went by the ServiceAccount only if the run had not started, as it found it
      since. */
  ghost predicate PassFacts(s: Sys) {
    s.pass.Active? ==>
      && s.pass.at < |s.hist| && !IsTerminal(s.hist[s.pass.at].ctl.phase)
      && s.hist[s.pass.at].clock <= s.pass.now <= s.hist[|s.hist| - 1].clock
      && (s.pass.account == Unchecked ==> s.hist[s.pass.at].ctl.startTime.None?)
      && (s.pass.account == Missing ==> s.hist[s.pass.at].ctl.startTime.None? && AccountWas(s.hist, s.pass.at, false))
      && (s.pass.account == Present ==> s.hist[s.pass.at].ctl.startTime.Some? || AccountWas(s.hist, s.pass.at, true))
  }

  lemma AccountWasLonger(hist: seq<World>, hist': seq<World>, from: nat, present: bool)
    requires AccountWas(hist, from, present) && hist <= hist'
    ensures AccountWas(hist', from, present)
  {
    var k: nat :| from <= k < |hist| && hist[k].accountPresent == present;
    assert hist'[k] == hist[k];
  }

  lemma PassFactsStep(t: Template, s: Sys, e: Event)
    requires ValidTemplate(t) && Inv(t, s) && Enabled(t, s, e) && PassFacts(s)
    ensures PassFacts(Next(t, s, e))
  {
    hide GoodWorld, AllGood, Sound, Locked, Stable, SeesTruly, AccountWas, DecisionOf, StatusFor, WorldEnabled, WorldNext, ValidTemplate;
    HistoryStepGrows(t, s, e);
    StepHistory(t, s, e);
    var s' := Next(t, s, e);
    if s.pass.Active? {
      assert s'.hist[s.pass.at] == s.hist[s.pass.at];
      forall present | AccountWas(s.hist, s.pass.at, present)
        ensures AccountWas(s'.hist, s.pass.at, present)
      {
        AccountWasLonger(s.hist, s'.hist, s.pass.at, present);
      }
    }
    if e.CheckAccount? {
      SinceNow(s);
    }
    if e.Begin? {
      assert Grows(s.hist[e.at], Now(s));
    }
  }

  lemma SinceNow(s: Sys)
    requires s.pass.Active? && s.pass.at < |s.hist|
    ensures AccountWas(s.hist, s.pass.at, Now(s).accountPresent)
  {
    assert s.hist[|s.hist| - 1].accountPresent == Now(s).accountPresent;
  }

  // ------------------------------------------------------ shapes of a status

  /** Every status that is ever stored has one of these forms. */
  predicate Shaped(st: ControllerStatus) {
    match st.phase
    case Unset => st == ControllerStatus(Unset, None, None, None, map[])
    case Pending => false
    case Running => st.startTime.Some? && st == ControllerStatus(Running, st.startTime, None, None, map[])
    case Error =>
      && st.startTime.Some? && st.completionTime.Some? && st.summary.None?
      && (st.conditions == map[Completed := Finished(Error)]
          || st.conditions == map[Completed := Finished(Error), DeadlineExceeded := TimedOut]
          || st.conditions == map[Completed := Finished(Error), ServiceAccountMissing := ServiceAccountNotFound])
    case _ =>
      st.startTime.Some? && st.completionTime.Some? && st.summary.Some? && st.conditions == map[Completed := Finished(st.phase)]
  }

  /** Its times are whole seconds, in order, and not in the future. */
  predicate Timed(w: World) {
    && (w.ctl.startTime.Some? ==> w.ctl.startTime.value % 1_000_000_000 == 0 && w.ctl.startTime.value <= w.clock)
    && (w.ctl.completionTime.Some? ==>
          && w.ctl.completionTime.value % 1_000_000_000 == 0 && w.ctl.completionTime.value <= w.clock
          && w.ctl.startTime.Some? && w.ctl.startTime.value <= w.ctl.completionTime.value)
  }

  predicate WellStored(w: World) {
    Shaped(w.ctl) && Timed(w)
  }

  predicate FinishKind(d: Decision)
    requires d.Finish?
  {
    || d == MISSING_ACCOUNT || d == PAST_DEADLINE || d == JOB_FAILED
    || ((d.phase == Succeeded || d.phase == Failed) && d.summary.Some? && d.extra == map[])
  }

  /** What an apply stores, given an unfinished run that was read well-formed. */
  lemma AppliedShape(d: Decision, ctl: ControllerStatus, now: int)
    requires Shaped(ctl) && !IsTerminal(ctl.phase)
    requires d.Finish? ==> FinishKind(d)
    ensures Shaped(StatusFor(d, ctl, now)) && StatusFor(d, ctl, now).phase != Unset
  {
    assert ctl.conditions == map[];
    if d.Finish? {
      assert ctl.conditions + d.extra == d.extra;
      assert map[DeadlineExceeded := TimedOut][Completed := Finished(Error)]
          == map[Completed := Finished(Error), DeadlineExceeded := TimedOut];
      assert map[ServiceAccountMissing := ServiceAccountNotFound][Completed := Finished(Error)]
          == map[Completed := Finished(Error), ServiceAccountMissing := ServiceAccountNotFound];
      assert map[Completed := RunnerError][Completed := Finished(Error)] == map[Completed := Finished(Error)];
      assert map[][Completed := Finished(d.phase)] == map[Completed := Finished(d.phase)];
    }
  }

  lemma WholeSeconds(a: int, b: int)
    requires a <= b
    ensures Stored(a) <= Stored(b) <= b && Stored(a) % 1_000_000_000 == 0
  {
  }

  lemma AppliedTimes(d: Decision, read: World, now: int, later: World)
    requires WellStored(read) && !IsTerminal(read.ctl.phase) && read.clock <= now <= later.clock
    requires later.ctl == StatusFor(d, read.ctl, now)
    ensures Timed(later)
  {
    WholeSeconds(StartOf(read.ctl, now), now);
    WholeSeconds(now, later.clock);
  }

  lemma DecisionKinds(t: Template, s: Sys)
    requires |s.hist| > 0 && Enabled(t, s, ApplyStatus)
    ensures var d := DecisionOf(t, s); d.Finish? ==> FinishKind(d)
  {
    hide Complete, SummaryOf, PastDeadline, SomeJobFailed, AllJobsComplete;
  }

  ghost predicate AllWellStored(hist: seq<World>) {
    forall n :: 0 <= n < |hist| ==> WellStored(hist[n])
  }

  lemma WellStoredStep(t: Template, s: Sys, e: Event)
    requires ValidTemplate(t) && Inv(t, s) && Enabled(t, s, e) && PassFacts(s) && AllWellStored(s.hist)
    ensures AllWellStored(Next(t, s, e).hist)
  {
    hide GoodWorld, AllGood, Sound, Locked, Stable, SeesTruly, Monotone, AccountWas, DecisionOf, StatusFor;
    hide WorldEnabled, WorldNext, ValidTemplate, Shaped;
    StepHistory(t, s, e);
    var s' := Next(t, s, e);
    if e.ApplyStatus? {
      DecisionKinds(t, s);
      assert WellStored(s.hist[s.pass.at]);
      AppliedShape(DecisionOf(t, s), s.hist[s.pass.at].ctl, s.pass.now);
      AppliedTimes(DecisionOf(t, s), s.hist[s.pass.at], s.pass.now, Now(s'));
    }
    assert WellStored(s.hist[|s.hist| - 1]);
    forall n | 0 <= n < |s'.hist|
      ensures WellStored(s'.hist[n])
    {
      if n < |s.hist| { assert s'.hist[n] == s.hist[n]; }
    }
  }

  lemma {:induction false} AlwaysWellStored(t: Template, tr: seq<Sys>, i: nat)
    requires ValidTemplate(t) && Behavior(t, tr) && i < |tr|
    ensures PassFacts(tr[i]) && AllWellStored(tr[i].hist)
  {
    hide Inv, Enabled, Next, ValidTemplate, PassFacts, AllWellStored;
    if i == 0 {
      FirstWellStored(tr[0]);
    } else {
      AlwaysWellStored(t, tr, i - 1);
      Invariant(t, tr, i - 1);
      assert Step(t, tr[i - 1], tr[i]);
      var e :| Enabled(t, tr[i - 1], e) && tr[i] == Next(t, tr[i - 1], e);
      PassFactsStep(t, tr[i - 1], e);
      WellStoredStep(t, tr[i - 1], e);
    }
  }

  lemma FirstWellStored(s: Sys)
    requires Initial(s)
    ensures PassFacts(s) && AllWellStored(s.hist)
  {
  }

  /** In every history, however far the caches lag: an unfinished run has no completion time,
      summary or condition, a verdict has all three, an Error has no summary and at most one
      reason besides; and times are whole seconds, in order, and never in the future. */
  lemma StoredStatusShape(t: Template, tr: seq<Sys>, i: nat, n: nat)
    requires ValidTemplate(t) && Behavior(t, tr) && i < |tr| && n < |tr[i].hist|
    ensures Shaped(tr[i].hist[n].ctl) && Timed(tr[i].hist[n])
  {
    hide Behavior, PassFacts, Shaped, Timed;
    AlwaysWellStored(t, tr, i);
    assert WellStored(tr[i].hist[n]);
  }

  // ------------------------------------------------- the pass behind a status

  /** The status of moments a to n is the same. */
  ghost predicate KeptFrom(hist: seq<World>, a: nat, n: nat)
    requires n < |hist|
  {
    forall k :: a <= k <= n ==> hist[k].ctl == hist[n].ctl
  }

  /** The status `hist` shows at moment `n` is the one a pass applied in state `s`. */
  ghost predicate AppliedBy(t: Template, s: Sys, s': Sys, hist: seq<World>, n: nat) {
    && 0 < |s.hist| <= n < |hist| && s.hist <= hist && KeptFrom(hist, |s.hist|, n)
    && Enabled(t, s, ApplyStatus) && s' == Next(t, s, ApplyStatus)
    && s.pass.at < |s.hist| && hist[n].ctl == StatusFor(DecisionOf(t, s), s.hist[s.pass.at].ctl, s.pass.now)
  }

  lemma AppliedByLonger(t: Template, s: Sys, s': Sys, hist: seq<World>, hist': seq<World>, n: nat)
    requires AppliedBy(t, s, s', hist, n) && hist <= hist'
    ensures AppliedBy(t, s, s', hist', n)
  {
    hide Enabled, Next, DecisionOf, StatusFor;
  }

  lemma AppliedByLater(t: Template, s: Sys, s': Sys, hist: seq<World>, n: nat)
    requires AppliedBy(t, s, s', hist, n) && n + 1 < |hist| && hist[n + 1].ctl == hist[n].ctl
    ensures AppliedBy(t, s, s', hist, n + 1)
  {
    hide Enabled, Next, DecisionOf, StatusFor;
  }

  lemma AppliedNow(t: Template, s: Sys, s': Sys)
    requires ValidTemplate(t) && Inv(t, s) && Enabled(t, s, ApplyStatus) && s' == Next(t, s, ApplyStatus)
    ensures AppliedBy(t, s, s', s'.hist, |s.hist|)
  {
    hide GoodWorld, AllGood, Sound, Locked, Stable, SeesTruly, Monotone, Decide, StatusFor;
  }

  /** Every status but the initial one goes back to such a pass. */
  lemma {:induction false} StatusHasItsPass(t: Template, tr: seq<Sys>, j: nat, n: nat) returns (i: nat)
    requires ValidTemplate(t) && Behavior(t, tr) && j < |tr| && n < |tr[j].hist| && tr[j].hist[n].ctl != INITIAL_STATUS
    ensures i < j && AppliedBy(t, tr[i], tr[i + 1], tr[j].hist, n)
    decreases j, n
  {
    hide GoodWorld, AllGood, Monotone, Sound, Locked, Stable, SeesTruly, Enabled, Next, ValidTemplate, Inv, AppliedBy;
    i := 0;
    if j > 0 {
      var s := tr[j - 1];
      Invariant(t, tr, j - 1);
      assert Step(t, s, tr[j]);
      var e :| Enabled(t, s, e) && tr[j] == Next(t, s, e);
      i := StatusAfterEvent(t, tr, j, n, e);
    }
  }

  lemma {:induction false} StatusAfterEvent(t: Template, tr: seq<Sys>, j: nat, n: nat, e: Event) returns (i: nat)
    requires ValidTemplate(t) && Behavior(t, tr) && 0 < j < |tr| && n < |tr[j].hist| && tr[j].hist[n].ctl != INITIAL_STATUS
    requires Inv(t, tr[j - 1]) && Enabled(t, tr[j - 1], e) && tr[j] == Next(t, tr[j - 1], e)
    ensures i < j && AppliedBy(t, tr[i], tr[i + 1], tr[j].hist, n)
    decreases j, n, 0
  {
    hide GoodWorld, AllGood, Monotone, Sound, Locked, Stable, SeesTruly, Enabled, Next, ValidTemplate, Behavior, AppliedBy;
    var s := tr[j - 1];
    StepHistory(t, s, e);
    HistoryStepGrows(t, s, e);
    if n < |s.hist| {
      i := StatusHasItsPass(t, tr, j - 1, n);
      AppliedByLonger(t, tr[i], tr[i + 1], s.hist, tr[j].hist, n);
    } else if e.ApplyStatus? {
      i := j - 1;
      AppliedNow(t, s, tr[j]);
    } else {
      i := StatusHasItsPass(t, tr, j - 1, n - 1);
      AppliedByLonger(t, tr[i], tr[i + 1], s.hist, tr[j].hist, n - 1);
      AppliedByLater(t, tr[i], tr[i + 1], tr[j].hist, n - 1);
    }
  }

  // ------------------------------------------------------------ why an Error

  /** The condition was set by the pass that stored it, not carried over. */
  lemma ConditionIsNew(t: Template, s: Sys, c: ConditionType)
    requires |s.hist| > 0 && Enabled(t, s, ApplyStatus) && s.pass.at < |s.hist|
    requires Shaped(s.hist[s.pass.at].ctl) && !IsTerminal(s.hist[s.pass.at].ctl.phase) && c != Completed
    requires c in StatusFor(DecisionOf(t, s), s.hist[s.pass.at].ctl, s.pass.now).conditions
    ensures DecisionOf(t, s).Finish? && c in DecisionOf(t, s).extra
  {
    hide Decide, DecisionOf;
  }

  /** A run that is stored as timed out was: the pass that stored this read a start time that
      lay more than the timeout, ten minutes unless set, before its clock; a run it found
      unstarted only with a negative timeout. Its start is stored, so the completion time
      shows as much, to the second. */
  lemma DeadlineErrorsAreLate(t: Template, tr: seq<Sys>, j: nat, n: nat) returns (i: nat)
    requires ValidTemplate(t) && Behavior(t, tr) && j < |tr| && n < |tr[j].hist|
    requires DeadlineExceeded in tr[j].hist[n].ctl.conditions
    ensures i < j && AppliedBy(t, tr[i], tr[i + 1], tr[j].hist, n)
    ensures var read := tr[j].hist[tr[i].pass.at]; var now := tr[i].pass.now;
      var limit := if t.timeout.Some? then t.timeout.value else 600 * SECOND;
      && read.clock <= now <= tr[j].hist[n].clock && !IsTerminal(read.ctl.phase)
      && (if read.ctl.startTime.Some? then now > read.ctl.startTime.value + limit else limit < 0)
      && (limit >= 0 ==> var ctl := tr[j].hist[n].ctl;
            ctl.startTime == read.ctl.startTime && ctl.completionTime.value > ctl.startTime.value + limit - SECOND)
  {
    hide Behavior, Shaped, AppliedBy, Enabled, Next, AccountWas;
    i := StatusHasItsPass(t, tr, j, n);
    assert AppliedBy(t, tr[i], tr[i + 1], tr[j].hist, n);
    LateWhenStored(t, tr, i, j, n);
  }

  lemma LateWhenStored(t: Template, tr: seq<Sys>, i: nat, j: nat, n: nat)
    requires ValidTemplate(t) && Behavior(t, tr) && i < j < |tr| && n < |tr[j].hist|
    requires DeadlineExceeded in tr[j].hist[n].ctl.conditions && AppliedBy(t, tr[i], tr[i + 1], tr[j].hist, n)
    ensures tr[i].pass.Active? && tr[i].pass.at < |tr[j].hist|
    ensures var read := tr[j].hist[tr[i].pass.at]; var now := tr[i].pass.now;
      var limit := if t.timeout.Some? then t.timeout.value else 600 * SECOND;
      && read.clock <= now <= tr[j].hist[n].clock && !IsTerminal(read.ctl.phase)
      && (if read.ctl.startTime.Some? then now > read.ctl.startTime.value + limit else limit < 0)
      && (limit >= 0 ==> var ctl := tr[j].hist[n].ctl;
            ctl.startTime == read.ctl.startTime && ctl.completionTime.value > ctl.startTime.value + limit - SECOND)
  {
    hide Behavior, Shaped, AccountWas, Complete, Verdict, SomeJobFailed, AllJobsComplete;
    var s := tr[i];
    AlwaysWellStored(t, tr, i);
    assert WellStored(s.hist[s.pass.at]);
    Invariant(t, tr, j);
    assert Grows(s.hist[|s.hist| - 1], tr[j].hist[n]) by { KeptClock(t, tr[j], |s.hist| - 1, n); }
    assert tr[j].hist[s.pass.at] == s.hist[s.pass.at];
    ConditionIsNew(t, s, DeadlineExceeded);
    DeadlineExactly(t, s.hist[s.pass.at].ctl, s.hist[s.pass.at].entries, s.pass.seen, s.pass.now);
  }

  lemma KeptClock(t: Template, s: Sys, a: nat, b: nat)
    requires Inv(t, s) && a <= b < |s.hist|
    ensures Grows(s.hist[a], s.hist[b])
  {
  }

  /** A run is stored as lacking its ServiceAccount only by a pass that read it unstarted and
      found the account absent since; and a pass that reads it unstarted and does not find
      the account at any moment since stores nothing else. */
  lemma AccountErrorsAreTrue(t: Template, tr: seq<Sys>, i: nat)
    requires ValidTemplate(t) && Behavior(t, tr) && i < |tr| && |tr[i].hist| > 0 && Enabled(t, tr[i], ApplyStatus)
    ensures var s := tr[i]; var read := s.hist[s.pass.at]; var st := StatusFor(DecisionOf(t, s), read.ctl, s.pass.now);
      && (ServiceAccountMissing in st.conditions ==>
            read.ctl.startTime.None? && exists k: nat :: s.pass.at <= k < |s.hist| && !s.hist[k].accountPresent)
      && (read.ctl.startTime.None? && (forall k: nat :: s.pass.at <= k < |s.hist| ==> !s.hist[k].accountPresent) ==>
            st.phase == Error && ServiceAccountMissing in st.conditions)
  {
    hide Behavior, Complete, SummaryOf, SomeJobFailed, AllJobsComplete, PastDeadline;
    AlwaysWellStored(t, tr, i);
    var s := tr[i];
    assert WellStored(s.hist[s.pass.at]);
    if ServiceAccountMissing in StatusFor(DecisionOf(t, s), s.hist[s.pass.at].ctl, s.pass.now).conditions {
      ConditionIsNew(t, s, ServiceAccountMissing);
    }
  }

  /** A pass that is in time, found no failed Job, saw every Job complete, and read complete
      results stores a verdict, and one that found a failed Job stores an Error. */
  lemma InTimePassesDecide(t: Template, tr: seq<Sys>, i: nat)
    requires ValidTemplate(t) && Behavior(t, tr) && i < |tr| && |tr[i].hist| > 0 && Enabled(t, tr[i], ApplyStatus)
    requires tr[i].pass.account == Present && InTime(t, tr[i].hist[tr[i].pass.at].ctl, tr[i].pass.now)
    ensures var s := tr[i]; var phase := Now(Next(t, s, ApplyStatus)).ctl.phase;
      && (phase == Error <==> exists r :: r in s.pass.seen && s.pass.seen[r].failed)
      && (phase == Succeeded || phase == Failed <==>
            (forall r :: r in s.pass.seen ==> s.pass.seen[r].complete && !s.pass.seen[r].failed)
            && Complete(t, s.hist[s.pass.at].entries))
      && (phase == Running <==> phase != Error && phase != Succeeded && phase != Failed)
  {
    hide Behavior, Complete, Decide, InTime, ValidTemplate, FailsAt, SummaryOf;
    var s := tr[i];
    InTimeDecision(t, s.hist[s.pass.at].ctl, s.hist[s.pass.at].entries, s.pass.seen, s.pass.now);
  }
}
