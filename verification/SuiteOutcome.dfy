/** What passes of the CheckSuite reconciler decide and leave behind, in terms of phases,
    ticks and the fields of the spec. */
module SuiteOutcome {
  import opened Types
  import opened CronScan
  import opened Names
  import opened SuiteController
  import opened SuitePass

  // ------------------------------------------------------------- the decision

  /** `x` is the last of the ticks after `from` that are due, counting no further than the
      81st. */
  ghost predicate LastDue(next: int -> int, from: int, now: int, x: int) {
    exists k: nat :: 1 <= k <= 81 && LastDueAt(next, from, now, x, k)
  }

  ghost predicate LastDueAt(next: int -> int, from: int, now: int, x: int, k: nat) {
    && x == Tick(next, from, k)
    && (forall j: nat :: 1 <= j <= k ==> Tick(next, from, j) <= now)
    && (k < 81 ==> Tick(next, from, k + 1) > now)
  }

  lemma ScanIsLastDue(next: int -> int, from: int, now: int, x: int)
    ensures ScanOf(next, from, now).lastMissed == Some(x) <==> LastDue(next, from, now, x)
    ensures ScanOf(next, from, now).lastMissed.None? <==> next(from) > now
  {
    hide Tick, Missed;
    var n := Missed(next, from, now, SCAN_LIMIT);
    MissedMeaning(next, from, now, SCAN_LIMIT);
    TickZero(next, from);
    if n > 0 {
      assert LastDueAt(next, from, now, Tick(next, from, n), n);
    }
    if k: nat :| 1 <= k <= 81 && LastDueAt(next, from, now, x, k) {
      MissedUnique(next, from, now, SCAN_LIMIT, k);
    }
  }

  /** What a pass does about the schedule. A tick fires exactly when the suite is scheduled
      and not suspended, the tick is the last one due since the recorded one, or since the
      suite's creation, it is no older than the starting deadline, 200 seconds when unset,
      and Forbid finds nothing active; otherwise that tick is skipped. */
  lemma DecidesExactly(s: Suite, active: seq<string>, now: int, x: int)
    ensures var d := Decide(s, active, now);
      var scheduled := !s.spec.suspend && s.spec.schedule.Cron?;
      var from := if s.status.lastScheduleTime.Some? then s.status.lastScheduleTime.value else s.spec.created;
      var deadline := if s.spec.startingDeadline.Some? then s.spec.startingDeadline.value else 200 * SECOND;
      var held := now - x > deadline || (s.spec.policy == Forbid && active != []);
      && (d == Fire(x) <==> scheduled && LastDue(s.spec.schedule.next, from, now, x) && !held)
      && (d == Skip(x) <==> scheduled && LastDue(s.spec.schedule.next, from, now, x) && held)
      && (d == NothingDue <==> !scheduled || s.spec.schedule.next(from) > now)
  {
    hide ScanOf, LastDue;
    if !s.spec.suspend && s.spec.schedule.Cron? {
      ScanIsLastDue(s.spec.schedule.next, Earliest(s), now, x);
    }
  }

  /** What a pass commits: the trigger it saw, the tick it handled, in whole seconds, whether
      the schedule could be parsed, and references to the active runs it listed, then to
      those it answers for. */
  lemma CommitSays(hash: string -> string, st: Store, active: seq<string>, now: int)
    ensures var s := st.suite; var d := Decide(s, active, now);
      var status := ExecAll(st, LaterOps(hash, s, active, now)).suite.status;
      var triggered := s.spec.runNow != "" && s.spec.runNow != s.status.lastManualTrigger;
      && status.lastManualTrigger == (if triggered then s.spec.runNow else s.status.lastManualTrigger)
      && status.lastScheduleTime == (if d.NothingDue? then s.status.lastScheduleTime else Some(d.tick - d.tick % 1_000_000_000))
      && status.scheduleValid == (if s.spec.suspend || s.spec.schedule.NoSchedule? then s.status.scheduleValid
                                  else Some(s.spec.schedule.Cron?))
      && status.active == active
           + (if triggered then [ManualName(hash, s.spec.name, s.spec.runNow)] else [])
           + (if d.Fire? then [TickName(hash, s.spec.name, d.tick)] else [])
  {
    hide ExecAll, LaterOps, Decide, TickName, ManualName;
    PassOutcome(hash, st, st.suite, active, now);
  }

  // -------------------------------------------------------------- the history

  /** The suite's own runs in one of the given phases. */
  function InPhases(runs: map<string, Run>, phases: set<RunPhase>): set<string> {
    set n | n in runs && runs[n].owned && runs[n].phase in phases
  }

  /** `a` started no later than `b`; a run without a start time counts from its creation. */
  predicate NoNewer(a: Run, b: Run) {
    (if a.startTime.Some? then a.startTime.value else a.created) <= (if b.startTime.Some? then b.startTime.value else b.created)
  }

  /** Of `before`'s runs in these phases `after` has the newest `limit`, or all. */
  ghost predicate Trimmed(before: map<string, Run>, after: map<string, Run>, phases: set<RunPhase>, limit: nat) {
    && InPhases(after, phases) <= InPhases(before, phases)
    && |InPhases(after, phases)| == Min(|InPhases(before, phases)|, limit)
    && (forall n :: n in InPhases(after, phases) ==> after[n] == before[n])
    && forall dropped, kept :: dropped in InPhases(before, phases) - InPhases(after, phases) && kept in InPhases(after, phases) ==>
         NoNewer(before[dropped], before[kept])
  }

  /** Every run of `after` is one of `before` or new and without a phase, and what is gone
      had one of the given names. */
  ghost predicate Spares(before: map<string, Run>, after: map<string, Run>, deleted: seq<string>) {
    && (forall n :: n in after ==> (n in before && after[n] == before[n]) || after[n].phase == Unset)
    && (forall n :: n in before && n !in deleted ==> n in after && after[n] == before[n])
  }

  lemma {:induction false} WritesSpare(st: Store, ops: seq<Op>, deleted: seq<string>)
    requires forall i :: 0 <= i < |ops| && ops[i].DeleteRun? ==> ops[i].name in deleted
    ensures Spares(st.runs, ExecAll(st, ops).runs, deleted)
  {
    if |ops| > 0 {
      WritesSpare(st, ops[..|ops| - 1], deleted);
    }
  }

  lemma LaterOpsSpare(hash: string -> string, st: Store, s: Suite, active: seq<string>, now: int)
    ensures Spares(st.runs, ExecAll(st, LaterOps(hash, s, active, now)).runs, active)
  {
    hide Decide, TickName, ManualName, StatusAfter, ExecAll, Spares;
    WritesSpare(st, LaterOps(hash, s, active, now), active);
  }

  lemma TrimmedKind(before: map<string, Run>, mid: map<string, Run>, after: map<string, Run>, active: seq<string>,
                    k: Kind, phases: set<RunPhase>, limit: nat)
    requires KeepsNewest(before, mid, k, limit) && Spares(mid, after, active) && Unset !in phases
    requires forall n :: n in mid ==> n in before && mid[n] == before[n]
    requires forall n :: n in active && n in mid ==> n !in OfKind(mid, k)
    requires OfKind(before, k) == InPhases(before, phases) && OfKind(mid, k) == InPhases(mid, phases)
    ensures Trimmed(before, after, phases, limit)
  {
    assert InPhases(after, phases) == InPhases(mid, phases);
  }

  lemma KindsAreFinished(runs: map<string, Run>)
    ensures OfKind(runs, IsSucceeded) == InPhases(runs, {Succeeded})
    ensures OfKind(runs, IsFailed) == InPhases(runs, {Failed, Error})
  {
  }

  lemma ActiveAreUnfinished(runs: map<string, Run>, listed: seq<Listed>, n: string)
    requires Lists(runs, listed) && n in NamesOf(Bucket(listed, IsActive))
    ensures n in OfKind(runs, IsActive)
  {
    BucketMembers(listed, IsActive);
    var b := Bucket(listed, IsActive);
    var i :| 0 <= i < |b| && NamesOf(b)[i] == n;
    assert b[i] in b;
  }

  /** The runs a pass leaves, cleanup and all: over a current listing of what it starts from,
      a pass that gets through keeps the newest succeeded runs, 3 unless the spec says how
      many, and the newest failed or errored ones, 5 unless it says so, each limit on its
      own. */
  lemma HistoryTrimmed(hash: string -> string, before: Store, after: Store, s: Suite, listed: seq<Listed>,
                       gone: seq<Listed>, gone': seq<Listed>, done: nat)
    requires Lists(before.runs, listed) && Followed(hash, before, after, s, listed, gone, gone', done)
    requires done == |PlanFor(hash, before.clock, s, listed, gone, gone')|
    ensures var h := s.spec.historyLimit;
      && Trimmed(before.runs, after.runs, {Succeeded},
                 if h.Some? && h.value.successful.Some? then h.value.successful.value else 3)
      && Trimmed(before.runs, after.runs, {Failed, Error}, if h.Some? && h.value.failed.Some? then h.value.failed.value else 5)
  {
    hide Lists, Excess, Bucket, ExecAll, CleanupOps, LaterOps, PlanFor, Trimmed, Spares, KeepsNewest, OfKind, NamesOf;
    var active := NamesOf(Bucket(listed, IsActive));
    var cleanup, later := CleanupOps(gone, gone'), LaterOps(hash, s, active, before.clock);
    PlanParts(hash, before.clock, s, listed, gone, gone');
    assert (cleanup + later)[..|cleanup + later|] == cleanup + later;
    var mid := ExecAll(before, cleanup);
    ExecSplit(before, cleanup, later);
    HistoryAfterCleanup(before, listed, SuccessLimit(s.spec), FailedLimit(s.spec), gone, gone');
    assert cleanup[..|cleanup|] == cleanup;
    CleanupSpares(before, listed, SuccessLimit(s.spec), FailedLimit(s.spec), gone, gone', |cleanup|);
    LaterOpsSpare(hash, mid, s, active, before.clock);
    KindsAreFinished(before.runs);
    KindsAreFinished(mid.runs);
    forall n, k: Kind | n in active && n in mid.runs && k != IsActive
      ensures n !in OfKind(mid.runs, k)
    {
      ActiveAreUnfinished(before.runs, listed, n);
      OneKind(mid.runs, n, k);
    }
    TrimmedKind(before.runs, mid.runs, after.runs, active, IsSucceeded, {Succeeded}, SuccessLimit(s.spec));
    TrimmedKind(before.runs, mid.runs, after.runs, active, IsFailed, {Failed, Error}, FailedLimit(s.spec));
  }

  lemma OneKind(runs: map<string, Run>, n: string, k: Kind)
    requires n in OfKind(runs, IsActive) && k != IsActive
    ensures n !in OfKind(runs, k)
  {
  }

  // ----------------------------------------------------- what a pass may touch

  /** The run is as a pass at this clock creates it: for the tick that fires or the trigger
      that is due. */
  ghost predicate CreatedBy(hash: string -> string, clock: int, s: Suite, active: seq<string>, n: string, r: Run) {
    && r == Run(Unset, None, clock - clock % 1_000_000_000, true, r.origin, s.spec.template)
    && match r.origin
       case Scheduled(tick, firedAt) => firedAt == clock && Decide(s, active, clock) == Fire(tick) && n == TickName(hash, s.spec.name, tick)
       case Manual(trigger) =>
         trigger == s.spec.runNow != "" && trigger != s.status.lastManualTrigger && n == ManualName(hash, s.spec.name, trigger)
       case AdHoc => false
  }

  /** A run of `after` is one of `st`'s or one that some operation created. */
  ghost predicate Traced(st: Store, ops: seq<Op>, after: map<string, Run>) {
    && (forall n :: n in st.runs && n !in after ==> DeleteRun(n) in ops)
    && (forall n :: n in after ==> (n in st.runs && after[n] == st.runs[n]) || MadeBy(st, ops, n, after[n]))
  }

  ghost predicate MadeBy(st: Store, ops: seq<Op>, n: string, r: Run) {
    CreateRun(n, r.origin, r.template) in ops && r == Run(Unset, None, Stored(st.clock), true, r.origin, r.template)
  }

  lemma {:induction false} WritesTraced(st: Store, ops: seq<Op>)
    ensures ExecAll(st, ops).clock == st.clock && Traced(st, ops, ExecAll(st, ops).runs)
  {
    if |ops| > 0 {
      var front := ops[..|ops| - 1];
      WritesTraced(st, front);
      assert forall op :: op in front ==> op in ops;
      assert ops[|ops| - 1] in ops;
    }
  }

  /** Where the writes of a pass come from. */
  lemma OpsOfPlan(hash: string -> string, now: int, s: Suite, listed: seq<Listed>, gone: seq<Listed>, gone': seq<Listed>, op: Op)
    requires op in PlanFor(hash, now, s, listed, gone, gone')
    ensures var active := NamesOf(Bucket(listed, IsActive));
      && (op.DeleteRun? ==> op.name in NamesOf(gone) + NamesOf(gone')
                            || (s.spec.policy == Replace && Decide(s, active, now).Fire? && op.name in active))
      && (op.CreateRun? ==> op.template == s.spec.template && match op.origin
            case Scheduled(tick, firedAt) =>
              firedAt == now && Decide(s, active, now) == Fire(tick) && op.name == TickName(hash, s.spec.name, tick)
            case Manual(trigger) =>
              trigger == s.spec.runNow != "" && trigger != s.status.lastManualTrigger && op.name == ManualName(hash, s.spec.name, trigger)
            case AdHoc => false)
  {
    hide Bucket, Decide, TickName, ManualName, StatusAfter;
  }

  /** A pass over a current listing, stopped anywhere: a run it removed was the suite's own,
      and either finished or, when a tick fires under Replace, any; a run it added is
      unstarted, the suite's own, made from its template, for the tick that fires or for the
      trigger that is due; all others are as they were. */
  lemma PassTouchesOnly(hash: string -> string, before: Store, after: Store, s: Suite, listed: seq<Listed>,
                        gone: seq<Listed>, gone': seq<Listed>, done: nat, n: string)
    requires Lists(before.runs, listed) && Followed(hash, before, after, s, listed, gone, gone', done)
    ensures var active := NamesOf(Bucket(listed, IsActive));
      && (n in before.runs && n !in after.runs ==>
            && before.runs[n].owned
            && (before.runs[n].phase in {Succeeded, Failed, Error}
                || (s.spec.policy == Replace && Decide(s, active, before.clock).Fire?)))
      && (n in after.runs ==>
            (n in before.runs && after.runs[n] == before.runs[n]) || CreatedBy(hash, before.clock, s, active, n, after.runs[n]))
  {
    hide Lists, Excess, Bucket, ExecAll, PlanFor, Decide, TickName, ManualName;
    var plan := PlanFor(hash, before.clock, s, listed, gone, gone');
    WritesTraced(before, plan[..done]);
    if n in before.runs && n !in after.runs {
      OpsOfPlan(hash, before.clock, s, listed, gone, gone', DeleteRun(n));
      if n in NamesOf(gone) + NamesOf(gone') {
        var i :| 0 <= i < |gone| + |gone'| && (NamesOf(gone) + NamesOf(gone'))[i] == n;
        AllVictimsAreTerminal(before.runs, listed, SuccessLimit(s.spec), FailedLimit(s.spec), gone, gone', i);
      } else {
        ActiveAreUnfinished(before.runs, listed, n);
      }
    }
    if n in after.runs && !(n in before.runs && after.runs[n] == before.runs[n]) {
      OpsOfPlan(hash, before.clock, s, listed, gone, gone', CreateRun(n, after.runs[n].origin, after.runs[n].template));
    }
  }
}
