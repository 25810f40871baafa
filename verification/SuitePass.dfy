/** What one pass of the CheckSuite reconciler achieves. */
module SuitePass {
  import opened Types
  import opened CronScan
  import opened Names
  import opened SuiteController

  // ------------------------------------------------------- reading the server

  /** `listed` is a complete listing of `runs`, in some order. */
  ghost predicate Lists(runs: map<string, Run>, listed: seq<Listed>) {
    && UniqueNames(listed)
    && forall x :: x in listed <==> x.name in runs && runs[x.name] == x.run
  }

  function OfKind(runs: map<string, Run>, k: Kind): set<string> {
    set n | n in runs && Belongs(Listed(n, runs[n]), k)
  }

  function NameSet(listed: seq<Listed>): set<string> {
    set x | x in listed :: x.name
  }

  lemma {:induction false} NameSetSize(listed: seq<Listed>)
    requires UniqueNames(listed)
    ensures |NameSet(listed)| == |listed|
  {
    if |listed| > 0 {
      var front, x := listed[..|listed| - 1], listed[|listed| - 1];
      NameSetSize(front);
      LastNameIsNew(listed);
      assert listed == front + [x];
      assert NameSet(listed) == NameSet(front) + {x.name};
    }
  }

  lemma LastNameIsNew(listed: seq<Listed>)
    requires UniqueNames(listed) && |listed| > 0
    ensures listed[|listed| - 1].name !in NameSet(listed[..|listed| - 1])
  {
  }

  lemma BucketNames(runs: map<string, Run>, listed: seq<Listed>, k: Kind)
    requires Lists(runs, listed)
    ensures NameSet(Bucket(listed, k)) == OfKind(runs, k)
    ensures |OfKind(runs, k)| == |Bucket(listed, k)|
  {
    BucketMembers(listed, k);
    BucketUnique(listed, k);
    NameSetSize(Bucket(listed, k));
    assert forall n :: n in OfKind(runs, k) ==> Listed(n, runs[n]) in Bucket(listed, k);
  }

  // ---------------------------------------------------------- history cleanup

  lemma {:induction false} DeletesEffect(st: Store, names: seq<string>)
    ensures ExecAll(st, Deletes(names)) == st.(runs := st.runs - (set n | n in names))
  {
    if |names| == 0 {
      assert st.runs - (set n | n in names) == st.runs;
    } else {
      var front := names[..|names| - 1];
      DeletesEffect(st, front);
      assert Deletes(names)[..|names| - 1] == Deletes(front);
      assert (set n | n in names) == (set n | n in front) + {names[|names| - 1]};
      assert st.runs - (set n | n in names) == (st.runs - (set n | n in front)) - {names[|names| - 1]};
    }
  }

  lemma SubsetByMembers(a: seq<Listed>, b: seq<Listed>)
    requires forall x :: x in a ==> x in b
    ensures NameSet(a) <= NameSet(b)
  {
  }

  /** With a full listing, cleanup leaves exactly the newest min(n, limit) runs of a
      kind: no deleted run is more recent than a kept one, and nothing else goes. */
  lemma CleanupKeepsNewest(runs: map<string, Run>, listed: seq<Listed>, k: Kind, limit: nat, victims: seq<Listed>)
    requires Lists(runs, listed) && Excess(Bucket(listed, k), limit, victims)
    ensures NameSet(victims) <= OfKind(runs, k)
    ensures |OfKind(runs, k) - NameSet(victims)| == Min(|OfKind(runs, k)|, limit)
    ensures forall dropped, kept :: dropped in NameSet(victims) && kept in OfKind(runs, k) - NameSet(victims) ==>
      Recency(runs[dropped]) <= Recency(runs[kept])
  {
    hide Bucket, UniqueNames;
    BucketNames(runs, listed, k);
    BucketMembers(listed, k);
    NameSetSize(victims);
    SubsetByMembers(victims, Bucket(listed, k));
    forall dropped, kept | dropped in NameSet(victims) && kept in OfKind(runs, k) - NameSet(victims)
      ensures Recency(runs[dropped]) <= Recency(runs[kept])
    {
      var v :| v in victims && v.name == dropped;
      assert Listed(kept, runs[kept]) in Bucket(listed, k);
      assert Listed(kept, runs[kept]) !in victims;
    }
  }

  /** If a delete fails midway, the runs deleted so far are closed towards older ones. */
  lemma CleanupStopsCleanly(runs: seq<Listed>, limit: nat, victims: seq<Listed>, done: nat, v: Listed, x: Listed)
    requires Excess(runs, limit, victims) && done <= |victims|
    requires v in victims[..done] && x in runs && Recency(x.run) < Recency(v.run)
    ensures x in victims[..done]
  {
  }

  lemma NamesAsSet(listed: seq<Listed>)
    ensures (set n | n in NamesOf(listed)) == NameSet(listed)
  {
    forall n | n in NameSet(listed)
      ensures n in NamesOf(listed)
    {
      var x :| x in listed && x.name == n;
      var i :| 0 <= i < |listed| && listed[i] == x;
      assert NamesOf(listed)[i] == n;
    }
  }

  lemma VictimsAreTerminal(runs: map<string, Run>, listed: seq<Listed>, k: Kind, limit: nat, victims: seq<Listed>, i: nat)
    requires Lists(runs, listed) && Excess(Bucket(listed, k), limit, victims) && k != IsActive && i < |victims|
    ensures var n := victims[i].name; n in runs && runs[n].owned && IsTerminal(runs[n].phase)
  {
    BucketMembers(listed, k);
    assert victims[i] in Bucket(listed, k);
  }

  lemma CleanupNames(gone: seq<Listed>, gone': seq<Listed>, done: nat)
    requires done <= |CleanupOps(gone, gone')|
    ensures done <= |NamesOf(gone) + NamesOf(gone')|
    ensures CleanupOps(gone, gone')[..done] == Deletes((NamesOf(gone) + NamesOf(gone'))[..done])
  {
  }

  lemma AllVictimsAreTerminal(runs: map<string, Run>, listed: seq<Listed>, limit: nat, limit': nat,
                              gone: seq<Listed>, gone': seq<Listed>, i: nat)
    requires Lists(runs, listed) && i < |gone| + |gone'|
    requires Excess(Bucket(listed, IsSucceeded), limit, gone) && Excess(Bucket(listed, IsFailed), limit', gone')
    ensures var n := (NamesOf(gone) + NamesOf(gone'))[i]; n in runs && runs[n].owned && IsTerminal(runs[n].phase)
  {
    hide Lists, Excess, Bucket;
    if i < |gone| {
      VictimsAreTerminal(runs, listed, IsSucceeded, limit, gone, i);
    } else {
      VictimsAreTerminal(runs, listed, IsFailed, limit', gone', i - |gone|);
    }
  }

  /** Cleanup of both kinds, stopped anywhere, deletes the chosen runs and only those:
      the suite's unfinished runs and everybody else's runs stay as they are. */
  lemma CleanupSpares(st: Store, listed: seq<Listed>, limit: nat, limit': nat, gone: seq<Listed>, gone': seq<Listed>, done: nat)
    requires Lists(st.runs, listed) && done <= |CleanupOps(gone, gone')|
    requires Excess(Bucket(listed, IsSucceeded), limit, gone) && Excess(Bucket(listed, IsFailed), limit', gone')
    ensures var st' := ExecAll(st, CleanupOps(gone, gone')[..done]);
      && st'.suite == st.suite && st'.clock == st.clock
      && (forall n :: n in st'.runs ==> n in st.runs && st'.runs[n] == st.runs[n])
      && (forall n :: n in st.runs && n !in st'.runs ==> st.runs[n].owned && IsTerminal(st.runs[n].phase))
  {
    hide Lists, Excess, Bucket, ExecAll, Deletes, NamesOf, CleanupOps, IsTerminal;
    var all := NamesOf(gone) + NamesOf(gone');
    CleanupNames(gone, gone', done);
    DeletesEffect(st, all[..done]);
    forall n | n in all[..done]
      ensures n in st.runs && st.runs[n].owned && IsTerminal(st.runs[n].phase)
    {
      var i :| 0 <= i < done && all[i] == n;
      AllVictimsAreTerminal(st.runs, listed, limit, limit', gone, gone', i);
    }
  }

  lemma CleanupEffect(st: Store, gone: seq<Listed>, gone': seq<Listed>)
    ensures ExecAll(st, CleanupOps(gone, gone')) == st.(runs := st.runs - NameSet(gone) - NameSet(gone'))
  {
    var names := NamesOf(gone) + NamesOf(gone');
    assert CleanupOps(gone, gone') == Deletes(names);
    DeletesEffect(st, names);
    NamesAsSet(gone);
    NamesAsSet(gone');
    assert (set n | n in names) == NameSet(gone) + NameSet(gone');
    assert st.runs - (NameSet(gone) + NameSet(gone')) == st.runs - NameSet(gone) - NameSet(gone');
  }

  /** One kind's share of a full cleanup. */
  ghost predicate KeepsNewest(before: map<string, Run>, after: map<string, Run>, k: Kind, limit: nat) {
    && OfKind(after, k) <= OfKind(before, k)
    && |OfKind(after, k)| == Min(|OfKind(before, k)|, limit)
    && forall dropped, kept :: dropped in OfKind(before, k) - OfKind(after, k) && kept in OfKind(after, k) ==>
         Recency(before[dropped]) <= Recency(before[kept])
  }

  lemma RemainingOfKind(runs: map<string, Run>, k: Kind, k': Kind, a: set<string>, b: set<string>)
    requires b <= OfKind(runs, k') && k != k'
    ensures OfKind(runs - a - b, k) == OfKind(runs, k) - a
    ensures OfKind(runs - b - a, k) == OfKind(runs, k) - a
  {
  }

  lemma KindKeepsNewest(runs: map<string, Run>, after: map<string, Run>, listed: seq<Listed>, k: Kind, limit: nat, victims: seq<Listed>)
    requires Lists(runs, listed) && Excess(Bucket(listed, k), limit, victims)
    requires OfKind(after, k) == OfKind(runs, k) - NameSet(victims)
    ensures KeepsNewest(runs, after, k, limit)
  {
    hide Lists, Excess, Bucket, Recency, OfKind, NameSet;
    CleanupKeepsNewest(runs, listed, k, limit, victims);
    RemovedAgain(OfKind(runs, k), NameSet(victims));
  }

  lemma RemovedAgain(all: set<string>, part: set<string>)
    requires part <= all
    ensures all - (all - part) == part
  {
  }

  /** A full cleanup over a current listing leaves exactly the newest min(n, limit)
      succeeded runs, the newest min(n, limit) failed or errored ones, and every
      unfinished run. */
  lemma HistoryAfterCleanup(st: Store, listed: seq<Listed>, limit: nat, limit': nat, gone: seq<Listed>, gone': seq<Listed>)
    requires Lists(st.runs, listed)
    requires Excess(Bucket(listed, IsSucceeded), limit, gone) && Excess(Bucket(listed, IsFailed), limit', gone')
    ensures var after := ExecAll(st, CleanupOps(gone, gone')).runs;
      && KeepsNewest(st.runs, after, IsSucceeded, limit)
      && KeepsNewest(st.runs, after, IsFailed, limit')
      && OfKind(after, IsActive) == OfKind(st.runs, IsActive)
  {
    hide Lists, Excess, Bucket, ExecAll, KeepsNewest, CleanupOps, NameSet;
    var a, b := NameSet(gone), NameSet(gone');
    CleanupEffect(st, gone, gone');
    CleanupKeepsNewest(st.runs, listed, IsSucceeded, limit, gone);
    CleanupKeepsNewest(st.runs, listed, IsFailed, limit', gone');
    RemainingOfKind(st.runs, IsSucceeded, IsFailed, a, b);
    RemainingOfKind(st.runs, IsFailed, IsSucceeded, b, a);
    assert OfKind(st.runs - a - b, IsActive) == OfKind(st.runs, IsActive);
    KindKeepsNewest(st.runs, st.runs - a - b, listed, IsSucceeded, limit, gone);
    KindKeepsNewest(st.runs, st.runs - a - b, listed, IsFailed, limit', gone');
  }

  // ----------------------------------------------------------- the schedule

  ghost predicate WholeSeconds(next: int -> int) {
    forall t :: next(t) % SECOND == 0
  }

  /** A schedule whose ticks are whole seconds and never run out. */
  ghost predicate Regular(next: int -> int) {
    Satisfiable(next) && WholeSeconds(next)
  }

  /** A schedule that always moves on, by whole seconds; one counted from its last tick is
      such a schedule without having fixed ticks. */
  ghost predicate Advancing(next: int -> int) {
    Increasing(next) && WholeSeconds(next)
  }

  lemma TickIsWhole(next: int -> int, x: int)
    requires WholeSeconds(next) && IsTick(next, x)
    ensures Stored(x) == x
  {
    assert next(x - 1) % SECOND == 0;
  }

  lemma MissedTick(next: int -> int, earliest: int, now: int)
    requires Satisfiable(next) && ScanOf(next, earliest, now).lastMissed.Some?
    ensures var tick := ScanOf(next, earliest, now).lastMissed.value; IsTick(next, tick) && earliest < tick <= now
  {
    if ScanOf(next, earliest, now).tooMany {
      CappedScan(next, earliest, now);
    } else {
      ScanFindsLatest(next, earliest, now);
    }
  }

  /** A scan that stops before its cap would have needed more ticks than are due. */
  lemma CapIsAhead(next: int -> int, base: int, now: int)
    requires Satisfiable(next) && !ScanOf(next, base, now).tooMany
    ensures Tick(next, base, SCAN_LIMIT) > now
  {
    hide Tick, Missed, Satisfiable;
    MissedMeaning(next, base, now, SCAN_LIMIT);
    var n := Missed(next, base, now, SCAN_LIMIT);
    if n + 1 < SCAN_LIMIT { TicksIncrease(next, base, n + 1, SCAN_LIMIT); }
  }

  /** A scan that starts before an already recorded tick, as one on a stale read does,
      comes up with a handled tick exactly when no later one has become due since, or the
      81st tick after its start is itself handled; with an earlier one than the recorded
      exactly when that 81st tick is. */
  lemma StaleScan(next: int -> int, base: int, recorded: int, now: int)
    requires Satisfiable(next) && IsTick(next, recorded) && base < recorded <= now
    ensures var missed := ScanOf(next, base, now).lastMissed;
      && missed.Some?
      && (missed.value <= recorded <==>
            (forall x :: IsTick(next, x) && x > recorded ==> x > now) || Tick(next, base, SCAN_LIMIT) <= recorded)
      && (missed.value < recorded <==> Tick(next, base, SCAN_LIMIT) < recorded)
  {
    hide ScanOf, IsTick, Satisfiable, Tick;
    if ScanOf(next, base, now).tooMany {
      CappedScan(next, base, now);
    } else {
      CapIsAhead(next, base, now);
      ScanFindsLatest(next, base, now);
    }
  }

  /** Whatever is decided concerns a real tick after the last handled one; a tick is
      fired only within the starting deadline, and skipped only if it is later than
      that or Forbid meets an unfinished run; nothing is due only if none was missed. */
  lemma DecisionFacts(s: Suite, active: seq<string>, now: int)
    requires s.spec.schedule.Cron? ==> Satisfiable(s.spec.schedule.next)
    ensures var d := Decide(s, active, now);
      && (!d.NothingDue? ==> Scheduling(s) && IsTick(s.spec.schedule.next, d.tick) && Earliest(s) < d.tick <= now)
      && (d.Fire? ==> now - d.tick <= StartingDeadline(s.spec) && (s.spec.policy == Forbid ==> active == []))
      && (d.Skip? ==> now - d.tick > StartingDeadline(s.spec) || (s.spec.policy == Forbid && active != []))
      && (d.NothingDue? && Scheduling(s) ==> forall x :: IsTick(s.spec.schedule.next, x) && x > Earliest(s) ==> x > now)
  {
    hide IsTick, Satisfiable, ScanOf;
    if Scheduling(s) {
      var next := s.spec.schedule.next;
      if ScanOf(next, Earliest(s), now).lastMissed.Some? {
        MissedTick(next, Earliest(s), now);
      } else {
        NoneFound(next, Earliest(s), now);
      }
    }
  }

  /** The same for any advancing schedule: what is fired or skipped is what the scan found,
      later than the recorded tick, due, and a whole second. */
  lemma DecisionGoesForward(s: Suite, active: seq<string>, now: int)
    requires s.spec.schedule.Cron? ==> Advancing(s.spec.schedule.next)
    ensures var d := Decide(s, active, now);
      && (!d.NothingDue? ==>
            && Scheduling(s) && ScanOf(s.spec.schedule.next, Earliest(s), now).lastMissed == Some(d.tick)
            && Earliest(s) < d.tick <= now && Stored(d.tick) == d.tick
            && (Satisfiable(s.spec.schedule.next) ==> IsTick(s.spec.schedule.next, d.tick)))
      && (d.Fire? ==> now - d.tick <= StartingDeadline(s.spec) && (s.spec.policy == Forbid ==> active == []))
  {
    hide IsTick, Satisfiable, ScanOf, Increasing;
    if Scheduling(s) {
      var next := s.spec.schedule.next;
      if ScanOf(next, Earliest(s), now).lastMissed.Some? {
        var t := ScanGoesForward(next, Earliest(s), now);
        assert next(t) % SECOND == 0;
        if Satisfiable(next) { MissedTick(next, Earliest(s), now); }
      }
    }
  }

  lemma NoneFound(next: int -> int, earliest: int, now: int)
    requires Satisfiable(next) && ScanOf(next, earliest, now).lastMissed.None?
    ensures forall x :: IsTick(next, x) && x > earliest ==> x > now
  {
    ScanFindsLatest(next, earliest, now);
  }

  /** The pass asks to come back at the first tick after now: later, and none skipped. */
  lemma RequeueAtNextTick(s: Suite, now: int)
    requires s.spec.schedule.Cron? ==> Satisfiable(s.spec.schedule.next)
    requires Earliest(s) <= now
    ensures Requeue(s, now).Some? <==> !s.spec.suspend && s.spec.schedule.Cron?
    ensures Requeue(s, now).Some? ==>
      Requeue(s, now).value > 0 && IsNextTick(s.spec.schedule.next, now, now + Requeue(s, now).value)
  {
    if Scheduling(s) {
      hide ScanOf, IsTick, Satisfiable;
      var next := s.spec.schedule.next;
      if ScanOf(next, Earliest(s), now).tooMany {
        CappedScan(next, Earliest(s), now);
      } else {
        ScanFindsLatest(next, Earliest(s), now);
      }
    }
  }

  /** Fired, skipped or not due, a committed pass moves LastScheduleTime exactly as one
      step of the catch-up does; and under a policy that is not Forbid, or with nothing
      active, it fires exactly the ticks the catch-up counts. */
  lemma PassAdvances(hash: string -> string, s: Suite, active: seq<string>, now: int, last: int, k: nat, i: nat)
    requires Scheduling(s) && Regular(s.spec.schedule.next) && i > 0
    requires Earliest(s) == After(s.spec.schedule.next, last, now, i - 1)
    requires Backlog(s.spec.schedule.next, last, now, k)
    requires s.spec.policy != Forbid || active == []
    ensures var next := s.spec.schedule.next; var lst := StatusAfter(hash, s, active, now).lastScheduleTime;
      && After(next, last, now, i) == (if lst.Some? then lst.value else Earliest(s))
      && (Decide(s, active, now).Fire? <==> Fires(next, last, now, StartingDeadline(s.spec), i))
      && (Decide(s, active, now).Fire? ==> Decide(s, active, now).tick == After(next, last, now, i))
  {
    hide ScanOf, IsTick;
    var next := s.spec.schedule.next;
    var scan := ScanOf(next, Earliest(s), now);
    assert After(next, last, now, i) == Advance(next, Earliest(s), now);
    if scan.lastMissed.Some? {
      MissedTick(next, Earliest(s), now);
      TickIsWhole(next, scan.lastMissed.value);
    }
  }

  // ----------------------------------------------------------- the outcome

  /** A run as the pass creates it: unstarted, owned, with the suite's template. */
  function NewRun(clock: int, origin: Origin, template: Template): Run {
    Run(Unset, None, Stored(clock), true, origin, template)
  }

  function WithRun(runs: map<string, Run>, name: string, run: Run): map<string, Run> {
    if name in runs then runs else runs[name := run]
  }

  /** The runs after the manual trigger. */
  function AfterManual(hash: string -> string, st: Store, s: Suite): map<string, Run> {
    if ManualDue(s) then
      WithRun(st.runs, ManualName(hash, s.spec.name, s.spec.runNow), NewRun(st.clock, Manual(s.spec.runNow), s.spec.template))
    else st.runs
  }

  function AfterReplace(runs: map<string, Run>, s: Suite, active: set<string>): map<string, Run> {
    if s.spec.policy == Replace then runs - active else runs
  }

  /** The runs after a pass without history cleanup that decided `d` at `now`. */
  function AfterPass(hash: string -> string, st: Store, s: Suite, active: set<string>, d: Verdict, now: int): map<string, Run> {
    var runs := AfterManual(hash, st, s);
    if d.Fire? then
      WithRun(AfterReplace(runs, s, active), TickName(hash, s.spec.name, d.tick),
              NewRun(st.clock, Scheduled(d.tick, now), s.spec.template))
    else runs
  }

  /** The names in `active` are the suite's unfinished runs. */
  ghost predicate ActiveIn(runs: map<string, Run>, active: seq<string>) {
    forall n :: n in active <==> n in OfKind(runs, IsActive)
  }

  function AsSet(names: seq<string>): set<string> {
    set n | n in names
  }

  lemma {:induction false} ExecSplit(st: Store, a: seq<Op>, b: seq<Op>)
    ensures ExecAll(st, a + b) == ExecAll(ExecAll(st, a), b)
  {
    RanThen(st, ExecAll(st, a), ExecAll(ExecAll(st, a), b), a, b, |b|) by {
      assert a[..|a|] == a && b[..|b|] == b;
    }
    assert (a + b)[..|a| + |b|] == a + b;
  }

  lemma ExecOne(st: Store, op: Op)
    ensures ExecAll(st, [op]) == Exec(st, op)
  {
    assert [op][..0] == [];
  }

  lemma ManualOutcome(hash: string -> string, st: Store, s: Suite)
    ensures ExecAll(st, ManualOps(hash, s)) == st.(runs := AfterManual(hash, st, s))
  {
    hide ManualName;
    if ManualDue(s) {
      ExecOne(st, ManualOps(hash, s)[0]);
    }
  }

  lemma TickOutcome(hash: string -> string, st: Store, s: Suite, active: seq<string>, now: int)
    ensures var d := Decide(s, active, now);
      ExecAll(st, TickOps(hash, s, active, now)).runs
      == if d.Fire? then
           WithRun(AfterReplace(st.runs, s, AsSet(active)), TickName(hash, s.spec.name, d.tick),
                   NewRun(st.clock, Scheduled(d.tick, now), s.spec.template))
         else st.runs
  {
    hide TickName, ExecAll, Decide;
    var d := Decide(s, active, now);
    if d.Fire? {
      var gone := if s.spec.policy == Replace then Deletes(active) else [];
      var op := CreateRun(TickName(hash, s.spec.name, d.tick), Scheduled(d.tick, now), s.spec.template);
      ExecSplit(st, gone, [op]);
      ExecOne(ExecAll(st, gone), op);
      if s.spec.policy == Replace { DeletesEffect(st, active); } else { NoOps(st); }
    } else {
      NoOps(st);
    }
  }

  lemma NoOps(st: Store)
    ensures ExecAll(st, []) == st
  {
  }

  /** A pass that gets through does all of it at once: the manual run, the replaced
      runs, the scheduled run and the status it commits. */
  lemma PassOutcome(hash: string -> string, st: Store, s: Suite, active: seq<string>, now: int)
    requires st.suite == s
    ensures ExecAll(st, LaterOps(hash, s, active, now))
      == Store(st.clock, Suite(s.spec, StatusAfter(hash, s, active, now), s.version + 1),
               AfterPass(hash, st, s, AsSet(active), Decide(s, active, now), now))
  {
    hide ExecAll, AfterManual, AfterReplace, TickName, Decide, StatusAfter, ManualOps, TickOps, AsSet;
    var m, t := ManualOps(hash, s), TickOps(hash, s, active, now);
    var last := UpdateStatus(StatusAfter(hash, s, active, now), s.version);
    ExecSplit(st, m + t, [last]);
    ExecSplit(st, m, t);
    ManualOutcome(hash, st, s);
    TickOutcome(hash, ExecAll(st, m), s, active, now);
    ExecOne(ExecAll(st, m + t), last);
    LaterOpsLeaveSuite(hash, st, s, active, now, |m| + |t|);
    assert (m + t)[..|m| + |t|] == m + t;
  }

  /** A run-now trigger is handled by the first pass that commits, suspended or not, and
      not again: its run exists afterwards unless Replace found it already active. A pass
      without a due trigger or a usable schedule creates nothing. */
  lemma TriggerHandledOnce(hash: string -> string, st: Store, active: seq<string>, now: int)
    ensures var s := st.suite; var st' := ExecAll(st, LaterOps(hash, s, active, now));
      var manual, replaced := ManualName(hash, s.spec.name, s.spec.runNow), s.spec.policy == Replace && Decide(s, active, now).Fire?;
      && st'.suite.spec == s.spec
      && (s.spec.runNow != "" ==> st'.suite.status.lastManualTrigger == s.spec.runNow)
      && (s.spec.runNow != "" && s.spec.runNow != s.status.lastManualTrigger && !(replaced && manual in active) ==>
            manual in st'.runs && (manual !in st.runs ==>
              st'.runs[manual] == NewRun(st.clock, Manual(s.spec.runNow), s.spec.template)))
      && ((s.spec.runNow == "" || s.spec.runNow == s.status.lastManualTrigger) && (s.spec.suspend || !s.spec.schedule.Cron?) ==> st'.runs == st.runs)
      && (s.spec.suspend || !s.spec.schedule.Cron? ==>
            st'.suite.status.lastScheduleTime == s.status.lastScheduleTime)
  {
    hide ExecAll, LaterOps, TickName, ManualName, ScanOf;
    PassOutcome(hash, st, st.suite, active, now);
  }

  /** The active references a pass commits name every run it leaves unfinished. */
  lemma ActiveRefsCover(hash: string -> string, st: Store, active: seq<string>, now: int, n: string)
    requires ActiveIn(st.runs, active)
    requires n in OfKind(ExecAll(st, LaterOps(hash, st.suite, active, now)).runs, IsActive)
    ensures n in ExecAll(st, LaterOps(hash, st.suite, active, now)).suite.status.active
  {
    hide ExecAll, LaterOps, TickName, ManualName, Decide;
    PassOutcome(hash, st, st.suite, active, now);
  }

  /** They also name a run that is gone exactly when Replace deleted some other run. */
  lemma ActiveRefsDangle(hash: string -> string, st: Store, active: seq<string>, now: int)
    requires ActiveIn(st.runs, active)
    ensures var s := st.suite; var st' := ExecAll(st, LaterOps(hash, s, active, now)); var d := Decide(s, active, now);
      (exists n :: n in st'.suite.status.active && n !in st'.runs)
      <==> d.Fire? && s.spec.policy == Replace && exists n :: n in active && n != TickName(hash, s.spec.name, d.tick)
  {
    hide ExecAll, LaterOps, TickName, ManualName, Decide;
    PassOutcome(hash, st, st.suite, active, now);
    var s, d := st.suite, Decide(st.suite, active, now);
    var st' := ExecAll(st, LaterOps(hash, s, active, now));
    if d.Fire? && s.spec.policy == Replace {
      if n :| n in active && n != TickName(hash, s.spec.name, d.tick) {
        assert n in st'.suite.status.active && n !in st'.runs;
      }
    }
  }

  /** Starting from a listing without repeats, they name a run twice exactly when a run the
      pass answers for was already active, as in a replay, or both have one name. */
  lemma ActiveRefsRepeat(hash: string -> string, s: Suite, active: seq<string>, now: int)
    requires NoRepeats(active)
    ensures var d := Decide(s, active, now); var manual := ManualName(hash, s.spec.name, s.spec.runNow);
      !NoRepeats(StatusAfter(hash, s, active, now).active) <==>
        || (ManualDue(s) && manual in active)
        || (d.Fire? && TickName(hash, s.spec.name, d.tick) in active)
        || (ManualDue(s) && d.Fire? && manual == TickName(hash, s.spec.name, d.tick))
  {
    hide Decide, ManualName, TickName;
    var d, manual := Decide(s, active, now), ManualName(hash, s.spec.name, s.spec.runNow);
    var first := active + if ManualDue(s) then [manual] else [];
    if ManualDue(s) {
      OneMoreName(active, manual);
    } else {
      assert first == active;
    }
    if d.Fire? {
      OneMoreName(first, TickName(hash, s.spec.name, d.tick));
      assert StatusAfter(hash, s, active, now).active == first + [TickName(hash, s.spec.name, d.tick)];
    } else {
      assert StatusAfter(hash, s, active, now).active == first;
    }
  }

  lemma OneMoreName(names: seq<string>, name: string)
    ensures NoRepeats(names + [name]) <==> NoRepeats(names) && name !in names
  {
    var more := names + [name];
    if NoRepeats(more) {
      assert forall i :: 0 <= i < |names| ==> more[i] == names[i];
      assert more[|names|] == name;
    }
  }

  /** What a pass does about a tick depends on the active runs only under Forbid, and
      then only on whether there are any. */
  lemma DecisionReadsActive(s: Suite, a: seq<string>, b: seq<string>, now: int)
    ensures s.spec.policy != Forbid || (a == [] <==> b == []) ==> Decide(s, a, now) == Decide(s, b, now)
    ensures Decide(s, a, now).NothingDue? <==> Decide(s, b, now).NothingDue?
    ensures !Decide(s, a, now).NothingDue? ==> Decide(s, a, now).tick == Decide(s, b, now).tick
  {
    hide ScanOf;
  }
}
