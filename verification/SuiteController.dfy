/** The CheckSuite reconciler: one pass over a cached suite and a cached list of its
    runs, as the sequence of API writes it makes. */
module SuiteController {
  import opened Types
  import opened CronScan
  import opened Names
  import Metrics

  // ------------------------------------------------------------------ objects

  datatype Policy = Allow | Forbid | Replace
  datatype Schedule = NoSchedule | Unparsable | Cron(next: int -> int)
  datatype HistoryLimit = HistoryLimit(successful: Option<nat>, failed: Option<nat>)

  /** `runNow` is the value of the run-now annotation, empty when absent. */
  datatype SuiteSpec = SuiteSpec(
    name: string,
    created: int,
    template: Template,
    schedule: Schedule,
    suspend: bool,
    policy: Policy,
    startingDeadline: Option<int>,
    historyLimit: Option<HistoryLimit>,
    runNow: string)

  datatype SuiteStatus = SuiteStatus(
    lastScheduleTime: Option<int>,
    lastManualTrigger: string,
    active: seq<string>,
    scheduleValid: Option<bool>)

  /** Every write of any part of the suite changes its version. */
  datatype Suite = Suite(spec: SuiteSpec, status: SuiteStatus, version: nat)

  /** Why a run exists; the object itself only shows it in its name. */
  datatype Origin = Scheduled(tick: int, firedAt: int) | Manual(trigger: string) | AdHoc

  /** `owned`: the suite is its controller. */
  datatype Run = Run(
    phase: RunPhase,
    startTime: Option<int>,
    created: int,
    owned: bool,
    origin: Origin,
    template: Template)

  datatype Store = Store(clock: int, suite: Suite, runs: map<string, Run>)

  // ------------------------------------------------------------------- writes

  datatype Op =
    | DeleteRun(name: string)
    | CreateRun(name: string, origin: Origin, template: Template)
    | UpdateStatus(status: SuiteStatus, version: nat)

  /** Deleting a missing run and creating an existing one change nothing; a status
      update only lands on the version it was read from. */
  function Exec(st: Store, op: Op): Store {
    match op
    case DeleteRun(n) => st.(runs := st.runs - {n})
    case CreateRun(n, origin, template) =>
      if n in st.runs then st
      else st.(runs := st.runs[n := Run(Unset, None, Stored(st.clock), true, origin, template)])
    case UpdateStatus(status, version) =>
      if st.suite.version == version then st.(suite := Suite(st.suite.spec, status, version + 1)) else st
  }

  function ExecAll(st: Store, ops: seq<Op>): Store {
    if |ops| == 0 then st else Exec(ExecAll(st, ops[..|ops| - 1]), ops[|ops| - 1])
  }

  /** The first `done` operations of `plan` took `before` to `after`. */
  ghost predicate Ran(before: Store, after: Store, plan: seq<Op>, done: nat) {
    done <= |plan| && after == ExecAll(before, plan[..done])
  }

  lemma RanNext(before: Store, after: Store, plan: seq<Op>, done: nat)
    requires Ran(before, after, plan, done) && done < |plan|
    ensures Ran(before, Exec(after, plan[done]), plan, done + 1)
  {
    assert plan[..done + 1][..done] == plan[..done];
  }

  lemma {:induction false} RanThen(a: Store, b: Store, c: Store, p: seq<Op>, q: seq<Op>, done: nat)
    requires Ran(a, b, p, |p|) && Ran(b, c, q, done)
    ensures Ran(a, c, p + q, |p| + done)
    decreases done
  {
    assert p[..|p|] == p;
    if done == 0 {
      assert (p + q)[..|p|] == p;
    } else {
      assert q[..done][..done - 1] == q[..done - 1];
      RanThen(a, b, ExecAll(b, q[..done - 1]), p, q, done - 1);
      RanNext(a, ExecAll(b, q[..done - 1]), p + q, |p| + done - 1);
    }
  }

  lemma RanMore(a: Store, b: Store, p: seq<Op>, q: seq<Op>, done: nat)
    requires Ran(a, b, p, done)
    ensures Ran(a, b, p + q, done)
  {
    assert (p + q)[..done] == p[..done];
  }

  /** Any call may fail; a failed write may or may not have landed. */
  class SuiteApi {
    var store: Store

    constructor (store: Store)
      ensures this.store == store
    {
      this.store := store;
    }

    method Delete(name: string) returns (ok: bool, ghost landed: bool)
      modifies this
      ensures store == if landed then Exec(old(store), DeleteRun(name)) else old(store)
      ensures landed ==> store == old(store).(runs := old(store).runs - {name})
      ensures ok ==> landed
    {
      var arrives, answered := *, *;
      landed := arrives;
      if arrives {
        store := store.(runs := store.runs - {name});
      }
      ok := arrives && answered;
    }

    /** AlreadyExists is answered by reading the existing run, which may fail too. */
    method Create(name: string, origin: Origin, template: Template) returns (ok: bool, ghost landed: bool)
      modifies this
      ensures store == if landed then Exec(old(store), CreateRun(name, origin, template)) else old(store)
      ensures name in old(store).runs ==> store == old(store)
      ensures landed && name !in old(store).runs ==>
        var created := Run(Unset, None, old(store).clock - old(store).clock % 1_000_000_000, true, origin, template);
        store == old(store).(runs := old(store).runs[name := created])
      ensures ok ==> landed
    {
      var arrives, answered := *, *;
      landed := arrives;
      if arrives && name !in store.runs {
        store := store.(runs := store.runs[name := Run(Unset, None, Stored(store.clock), true, origin, template)]);
      }
      ok := arrives && answered;
    }

    method UpdateSuiteStatus(status: SuiteStatus, version: nat) returns (ok: bool, ghost landed: bool)
      modifies this
      ensures store == if landed then Exec(old(store), UpdateStatus(status, version)) else old(store)
      ensures old(store).suite.version != version ==> store == old(store)
      ensures landed && old(store).suite.version == version ==>
        store == old(store).(suite := Suite(old(store).suite.spec, status, version + 1))
      ensures ok ==> landed && old(store).suite.version == version
    {
      var arrives, answered := *, *;
      landed := arrives;
      var conflict := store.suite.version != version;
      if arrives && !conflict {
        store := store.(suite := Suite(store.suite.spec, status, version + 1));
      }
      ok := arrives && answered && !conflict;
    }
  }

  // --------------------------------------------------------- the listed runs

  datatype Listed = Listed(name: string, run: Run)
  datatype Kind = IsActive | IsSucceeded | IsFailed

  function KindOf(p: RunPhase): Kind {
    if p == Succeeded then IsSucceeded else if p == Failed || p == Error then IsFailed else IsActive
  }

  ghost predicate UniqueNames(runs: seq<Listed>) {
    forall i, j :: 0 <= i < j < |runs| ==> runs[i].name != runs[j].name
  }

  predicate Belongs(x: Listed, k: Kind) {
    x.run.owned && KindOf(x.run.phase) == k
  }

  /** The suite's own runs of one kind, in list order. */
  function Bucket(runs: seq<Listed>, k: Kind): seq<Listed> {
    if |runs| == 0 then []
    else
      var x := runs[|runs| - 1];
      Bucket(runs[..|runs| - 1], k) + if Belongs(x, k) then [x] else []
  }

  lemma {:induction false} BucketMembers(runs: seq<Listed>, k: Kind)
    ensures forall x :: x in Bucket(runs, k) <==> x in runs && Belongs(x, k)
  {
    if |runs| > 0 {
      BucketMembers(runs[..|runs| - 1], k);
      assert runs == runs[..|runs| - 1] + [runs[|runs| - 1]];
    }
  }

  /** The positions they come from: in order, and exactly those of the owned runs that have
      succeeded, that have failed or errored, or that have done neither. */
  lemma {:induction false} BucketSelects(runs: seq<Listed>, k: Kind) returns (at: seq<int>)
    ensures |at| == |Bucket(runs, k)| && forall i, j :: 0 <= i < j < |at| ==> at[i] < at[j]
    ensures forall i :: 0 <= i < |at| ==> 0 <= at[i] < |runs| && runs[at[i]] == Bucket(runs, k)[i]
    ensures forall i :: i in at <==>
      && 0 <= i < |runs| && runs[i].run.owned
      && if k == IsSucceeded then runs[i].run.phase == Succeeded
         else if k == IsFailed then runs[i].run.phase == Failed || runs[i].run.phase == Error
         else runs[i].run.phase !in {Succeeded, Failed, Error}
  {
    at := [];
    if |runs| > 0 {
      var n := |runs| - 1;
      var front := BucketSelects(runs[..n], k);
      at := if Belongs(runs[n], k) then front + [n] else front;
    }
  }

  lemma {:induction false} BucketUnique(runs: seq<Listed>, k: Kind)
    requires UniqueNames(runs)
    ensures UniqueNames(Bucket(runs, k))
  {
    if |runs| > 0 {
      var front := runs[..|runs| - 1];
      BucketUnique(front, k);
      BucketMembers(front, k);
      var b := Bucket(front, k);
      forall i | 0 <= i < |b|
        ensures b[i].name != runs[|runs| - 1].name
      {
        assert b[i] in front;
      }
    }
  }

  method Classify(runs: seq<Listed>) returns (active: seq<Listed>, succeeded: seq<Listed>, failed: seq<Listed>)
    ensures active == Bucket(runs, IsActive) && succeeded == Bucket(runs, IsSucceeded) && failed == Bucket(runs, IsFailed)
  {
    active, succeeded, failed := [], [], [];
    for i := 0 to |runs|
      invariant active == Bucket(runs[..i], IsActive)
      invariant succeeded == Bucket(runs[..i], IsSucceeded)
      invariant failed == Bucket(runs[..i], IsFailed)
    {
      assert runs[..i + 1][..i] == runs[..i];
      var x := runs[i];
      if x.run.owned {
        match KindOf(x.run.phase)
        case IsSucceeded => succeeded := succeeded + [x];
        case IsFailed => failed := failed + [x];
        case IsActive => active := active + [x];
      }
    }
    assert runs[..|runs|] == runs;
  }

  function NamesOf(runs: seq<Listed>): (names: seq<string>)
    ensures |names| == |runs| && forall i :: 0 <= i < |runs| ==> names[i] == runs[i].name
  {
    seq(|runs|, i requires 0 <= i < |runs| => runs[i].name)
  }

  function Deletes(names: seq<string>): (ops: seq<Op>)
    ensures |ops| == |names| && forall i :: 0 <= i < |names| ==> ops[i] == DeleteRun(names[i])
  {
    seq(|names|, i requires 0 <= i < |names| => DeleteRun(names[i]))
  }

  // ---------------------------------------------------------- history cleanup

  function Recency(r: Run): int {
    if r.startTime.Some? then r.startTime.value else r.created
  }

  ghost predicate OldestFirst(runs: seq<Listed>) {
    forall i, j :: 0 <= i < j < |runs| ==> Recency(runs[i].run) <= Recency(runs[j].run)
  }

  /** `b` holds the same runs as `a`, in some order. */
  ghost predicate Reorders(a: seq<Listed>, b: seq<Listed>) {
    |a| == |b| && UniqueNames(b) && forall x :: x in a <==> x in b
  }

  function InsertByRecency(x: Listed, sorted: seq<Listed>): (r: seq<Listed>)
    ensures |r| == |sorted| + 1 && forall y :: y in r <==> y == x || y in sorted
  {
    if |sorted| == 0 || Recency(x.run) <= Recency(sorted[0].run) then [x] + sorted
    else [sorted[0]] + InsertByRecency(x, sorted[1..])
  }

  lemma {:induction false} InsertKeepsOrder(x: Listed, sorted: seq<Listed>)
    requires OldestFirst(sorted)
    ensures OldestFirst(InsertByRecency(x, sorted))
  {
    if |sorted| > 0 && Recency(x.run) > Recency(sorted[0].run) {
      InsertKeepsOrder(x, sorted[1..]);
      var tail := InsertByRecency(x, sorted[1..]);
      forall j | 0 <= j < |tail|
        ensures Recency(sorted[0].run) <= Recency(tail[j].run)
      {
        assert tail[j] in tail;
      }
    }
  }

  lemma {:induction false} InsertKeepsUnique(x: Listed, sorted: seq<Listed>)
    requires UniqueNames(sorted)
    requires forall y :: y in sorted ==> y.name != x.name
    ensures UniqueNames(InsertByRecency(x, sorted))
  {
    if |sorted| > 0 && Recency(x.run) > Recency(sorted[0].run) {
      InsertKeepsUnique(x, sorted[1..]);
      var tail := InsertByRecency(x, sorted[1..]);
      forall j | 0 <= j < |tail|
        ensures sorted[0].name != tail[j].name
      {
        assert tail[j] in tail;
      }
    }
  }

  function SortedByRecency(runs: seq<Listed>): (r: seq<Listed>)
    ensures |r| == |runs| && forall y :: y in r <==> y in runs
  {
    if |runs| == 0 then [] else InsertByRecency(runs[0], SortedByRecency(runs[1..]))
  }

  lemma {:induction false} SortingSorts(runs: seq<Listed>)
    requires UniqueNames(runs)
    ensures OldestFirst(SortedByRecency(runs)) && UniqueNames(SortedByRecency(runs))
  {
    if |runs| > 0 {
      var rest := runs[1..];
      SortingSorts(rest);
      InsertKeepsOrder(runs[0], SortedByRecency(rest));
      InsertKeepsUnique(runs[0], SortedByRecency(rest));
    }
  }

  /** Runs that tie may come out in any order: the contract does not say which. */
  method SortByRecency(runs: seq<Listed>) returns (sorted: seq<Listed>)
    requires UniqueNames(runs)
    ensures Reorders(runs, sorted) && OldestFirst(sorted)
  {
    SortingSorts(runs);
    sorted := SortedByRecency(runs);
  }

  /** `victims` are the runs beyond the newest `limit`, oldest first. */
  ghost predicate Excess(runs: seq<Listed>, limit: nat, victims: seq<Listed>) {
    && |victims| == (if |runs| <= limit then 0 else |runs| - limit)
    && UniqueNames(victims) && OldestFirst(victims)
    && (forall v :: v in victims ==> v in runs)
    && (forall v, x :: v in victims && x in runs && x !in victims ==> Recency(v.run) <= Recency(x.run))
  }

  lemma PrefixIsExcess(runs: seq<Listed>, limit: nat, sorted: seq<Listed>)
    requires Reorders(runs, sorted) && OldestFirst(sorted) && limit < |runs|
    ensures Excess(runs, limit, sorted[..|runs| - limit])
  {
    var victims := sorted[..|runs| - limit];
    forall v, x | v in victims && x in runs && x !in victims
      ensures Recency(v.run) <= Recency(x.run)
    {
      var i :| 0 <= i < |victims| && victims[i] == v;
      var j :| 0 <= j < |sorted| && sorted[j] == x;
      if j < |victims| {
        assert false;
      }
    }
  }

  lemma ExcessExists(runs: seq<Listed>, limit: nat) returns (victims: seq<Listed>)
    requires UniqueNames(runs)
    ensures Excess(runs, limit, victims)
  {
    victims := [];
    if limit < |runs| {
      SortingSorts(runs);
      PrefixIsExcess(runs, limit, SortedByRecency(runs));
      victims := SortedByRecency(runs)[..|runs| - limit];
    }
  }

  method DeleteEach(api: SuiteApi, runs: seq<Listed>) returns (ok: bool, ghost done: nat)
    modifies api
    ensures Ran(old(api.store), api.store, Deletes(NamesOf(runs)), done)
    ensures ok ==> done == |runs|
  {
    ghost var plan := Deletes(NamesOf(runs));
    done := 0;
    for i := 0 to |runs|
      invariant done == i && Ran(old(api.store), api.store, plan, i)
    {
      ghost var landed;
      RanNext(old(api.store), api.store, plan, i);
      ok, landed := api.Delete(runs[i].name);
      done := if landed then i + 1 else i;
      if !ok {
        return;
      }
    }
    ok := true;
  }

  method GcRuns(api: SuiteApi, runs: seq<Listed>, limit: nat) returns (ok: bool, ghost victims: seq<Listed>, ghost done: nat)
    requires UniqueNames(runs)
    modifies api
    ensures Excess(runs, limit, victims)
    ensures Ran(old(api.store), api.store, Deletes(NamesOf(victims)), done)
    ensures ok ==> done == |victims|
  {
    if |runs| <= limit {
      return true, [], 0;
    }
    var sorted := SortByRecency(runs);
    PrefixIsExcess(runs, limit, sorted);
    var excess := sorted[..|runs| - limit];
    victims := excess;
    ok, done := DeleteEach(api, excess);
  }

  function SuccessLimit(spec: SuiteSpec): nat {
    if spec.historyLimit.Some? && spec.historyLimit.value.successful.Some? then spec.historyLimit.value.successful.value else 3
  }

  function FailedLimit(spec: SuiteSpec): nat {
    if spec.historyLimit.Some? && spec.historyLimit.value.failed.Some? then spec.historyLimit.value.failed.value else 5
  }

  // ------------------------------------------------------------- the decision

  function StartingDeadline(spec: SuiteSpec): int {
    if spec.startingDeadline.Some? then spec.startingDeadline.value else DEFAULT_STARTING_DEADLINE
  }

  function Earliest(s: Suite): int {
    if s.status.lastScheduleTime.Some? then s.status.lastScheduleTime.value else s.spec.created
  }

  predicate ManualDue(s: Suite) {
    s.spec.runNow != "" && s.spec.runNow != s.status.lastManualTrigger
  }

  /** The schedule is looked at. */
  predicate Scheduling(s: Suite) {
    !s.spec.suspend && s.spec.schedule.Cron?
  }

  datatype Verdict = NothingDue | Skip(tick: int) | Fire(tick: int)

  /** What a pass that lists `active` unfinished runs does about the schedule. */
  function Decide(s: Suite, active: seq<string>, now: int): Verdict {
    if !Scheduling(s) then NothingDue
    else
      var missed := ScanOf(s.spec.schedule.next, Earliest(s), now).lastMissed;
      if missed.None? then NothingDue
      else if now - missed.value > StartingDeadline(s.spec) then Skip(missed.value)
      else if s.spec.policy == Forbid && |active| > 0 then Skip(missed.value)
      else Fire(missed.value)
  }

  function ManualOps(hash: string -> string, s: Suite): seq<Op> {
    if ManualDue(s) then [CreateRun(ManualName(hash, s.spec.name, s.spec.runNow), Manual(s.spec.runNow), s.spec.template)]
    else []
  }

  function TickOps(hash: string -> string, s: Suite, active: seq<string>, now: int): seq<Op> {
    match Decide(s, active, now)
    case Fire(tick) =>
      (if s.spec.policy == Replace then Deletes(active) else [])
      + [CreateRun(TickName(hash, s.spec.name, tick), Scheduled(tick, now), s.spec.template)]
    case _ => []
  }

  function StatusAfter(hash: string -> string, s: Suite, active: seq<string>, now: int): SuiteStatus {
    var d := Decide(s, active, now);
    SuiteStatus(
      if d.NothingDue? then s.status.lastScheduleTime else Some(Stored(d.tick)),
      if ManualDue(s) then s.spec.runNow else s.status.lastManualTrigger,
      active + (if ManualDue(s) then [ManualName(hash, s.spec.name, s.spec.runNow)] else [])
      + (if d.Fire? then [TickName(hash, s.spec.name, d.tick)] else []),
      if Scheduling(s) then Some(true)
      else if !s.spec.suspend && s.spec.schedule.Unparsable? then Some(false)
      else s.status.scheduleValid)
  }

  /** All the writes of a pass, in order; the status commit comes last. */
  function Plan(hash: string -> string, s: Suite, active: seq<string>, victims: seq<string>, now: int): seq<Op> {
    Deletes(victims) + ManualOps(hash, s) + TickOps(hash, s, active, now)
    + [UpdateStatus(StatusAfter(hash, s, active, now), s.version)]
  }

  function Requeue(s: Suite, now: int): Option<int> {
    if Scheduling(s) then Some(ScanOf(s.spec.schedule.next, Earliest(s), now).next - now) else None
  }

  // ----------------------------------------------------------------- one pass

  method RunNow(api: SuiteApi, hash: string -> string, s: Suite) returns (ok: bool, ghost done: nat)
    modifies api
    ensures Ran(old(api.store), api.store, ManualOps(hash, s), done)
    ensures ok ==> done == |ManualOps(hash, s)|
  {
    done := 0;
    ok := true;
    if s.spec.runNow != "" && s.spec.runNow != s.status.lastManualTrigger {
      ghost var landed;
      RanNext(api.store, api.store, ManualOps(hash, s), 0);
      ok, landed := api.Create(ManualName(hash, s.spec.name, s.spec.runNow), Manual(s.spec.runNow), s.spec.template);
      done := if landed then 1 else 0;
    }
  }

  /** Fires a tick: Replace deletes the active runs first. */
  method FireTick(api: SuiteApi, hash: string -> string, s: Suite, active: seq<Listed>, now: int, tick: int)
    returns (ok: bool, ghost done: nat)
    requires Decide(s, NamesOf(active), now) == Fire(tick)
    modifies api
    ensures Ran(old(api.store), api.store, TickOps(hash, s, NamesOf(active), now), done)
    ensures ok ==> done == |TickOps(hash, s, NamesOf(active), now)|
  {
    ghost var gone := if s.spec.policy == Replace then Deletes(NamesOf(active)) else [];
    ghost var plan := TickOps(hash, s, NamesOf(active), now);
    var name := TickName(hash, s.spec.name, tick);
    assert plan == gone + [CreateRun(name, Scheduled(tick, now), s.spec.template)];
    done := 0;
    if s.spec.policy == Replace {
      ok, done := DeleteEach(api, active);
      RanMore(old(api.store), api.store, gone, [CreateRun(name, Scheduled(tick, now), s.spec.template)], done);
      if !ok {
        return;
      }
    }
    assert Ran(old(api.store), api.store, plan, |gone|);
    ghost var landed;
    RanNext(old(api.store), api.store, plan, |gone|);
    ok, landed := api.Create(name, Scheduled(tick, now), s.spec.template);
    done := if landed then |gone| + 1 else |gone|;
  }

  /** The schedule part of a pass: scan, then skip or fire, and when to come back. */
  method HandleSchedule(api: SuiteApi, hash: string -> string, s: Suite, active: seq<Listed>, now: int)
    returns (ok: bool, lastScheduleTime: Option<int>, fired: Option<string>, requeue: Option<int>, ghost done: nat)
    requires Scheduling(s)
    modifies api
    ensures Ran(old(api.store), api.store, TickOps(hash, s, NamesOf(active), now), done)
    ensures ok ==> done == |TickOps(hash, s, NamesOf(active), now)| && requeue == Requeue(s, now)
    ensures ok ==> lastScheduleTime == StatusAfter(hash, s, NamesOf(active), now).lastScheduleTime
    ensures ok ==> var d := Decide(s, NamesOf(active), now);
      fired == if d.Fire? then Some(TickName(hash, s.spec.name, d.tick)) else None
  {
    var earliest := s.spec.created;
    if s.status.lastScheduleTime.Some? {
      earliest := s.status.lastScheduleTime.value;
    }
    var missed, next, tooMany := MostRecentScheduleTime(s.spec.schedule.next, earliest, now);
    ok, lastScheduleTime, fired, requeue, done := true, s.status.lastScheduleTime, None, Some(next - now), 0;
    if missed.Some? {
      lastScheduleTime := Some(Stored(missed.value));
      if now - missed.value > StartingDeadline(s.spec) {
        // too stale to fire: recorded as handled
      } else if s.spec.policy == Forbid && |active| > 0 {
        // skipped: recorded as handled
      } else {
        ok, done := FireTick(api, hash, s, active, now, missed.value);
        fired := Some(TickName(hash, s.spec.name, missed.value));
      }
    }
  }

  /** A pass after history cleanup. */
  function LaterOps(hash: string -> string, s: Suite, active: seq<string>, now: int): seq<Op> {
    ManualOps(hash, s) + TickOps(hash, s, active, now) + [UpdateStatus(StatusAfter(hash, s, active, now), s.version)]
  }

  function CleanupOps(gone: seq<Listed>, gone': seq<Listed>): seq<Op> {
    Deletes(NamesOf(gone)) + Deletes(NamesOf(gone'))
  }

  method CollectHistory(api: SuiteApi, spec: SuiteSpec, succeeded: seq<Listed>, failed: seq<Listed>)
    returns (ok: bool, ghost gone: seq<Listed>, ghost gone': seq<Listed>, ghost done: nat)
    requires UniqueNames(succeeded) && UniqueNames(failed)
    modifies api
    ensures Excess(succeeded, SuccessLimit(spec), gone) && Excess(failed, FailedLimit(spec), gone')
    ensures Ran(old(api.store), api.store, CleanupOps(gone, gone'), done)
    ensures ok ==> done == |CleanupOps(gone, gone')| && api.store.suite == old(api.store.suite) && api.store.clock == old(api.store.clock)
  {
    ok, gone, done := GcRuns(api, succeeded, SuccessLimit(spec));
    if !ok {
      gone' := ExcessExists(failed, FailedLimit(spec));
      RanMore(old(api.store), api.store, Deletes(NamesOf(gone)), Deletes(NamesOf(gone')), done);
      return;
    }
    ghost var mid, step := api.store, 0;
    ok, gone', step := GcRuns(api, failed, FailedLimit(spec));
    RanThen(old(api.store), mid, api.store, Deletes(NamesOf(gone)), Deletes(NamesOf(gone')), step);
    done := |gone| + step;
    RunWritesLeaveSuite(old(api.store), (Deletes(NamesOf(gone)) + Deletes(NamesOf(gone')))[..done]);
  }

  lemma {:induction false} RunWritesLeaveSuite(st: Store, ops: seq<Op>)
    requires forall i :: 0 <= i < |ops| ==> !ops[i].UpdateStatus?
    ensures ExecAll(st, ops).suite == st.suite && ExecAll(st, ops).clock == st.clock
  {
    if |ops| > 0 { RunWritesLeaveSuite(st, ops[..|ops| - 1]); }
  }

  lemma LaterOpsLeaveSuite(hash: string -> string, st: Store, s: Suite, active: seq<string>, now: int, done: nat)
    requires done <= |ManualOps(hash, s)| + |TickOps(hash, s, active, now)|
    ensures var ops := ManualOps(hash, s) + TickOps(hash, s, active, now);
      ExecAll(st, ops[..done]).suite == st.suite && ExecAll(st, ops[..done]).clock == st.clock
  {
    hide ExecAll, ScanOf, TickName, ManualName;
    RunWritesLeaveSuite(st, (ManualOps(hash, s) + TickOps(hash, s, active, now))[..done]);
  }

  /** The run-now trigger, then the schedule, and the status to commit afterwards. */
  method TriggerAndTick(api: SuiteApi, hash: string -> string, s: Suite, active: seq<Listed>, now: int)
    returns (ok: bool, status: SuiteStatus, requeue: Option<int>, ghost done: nat)
    modifies api
    ensures Ran(old(api.store), api.store, ManualOps(hash, s) + TickOps(hash, s, NamesOf(active), now), done)
    ensures ok ==> done == |ManualOps(hash, s)| + |TickOps(hash, s, NamesOf(active), now)|
    ensures ok ==> status == StatusAfter(hash, s, NamesOf(active), now) && requeue == Requeue(s, now)
  {
    hide Ran, ManualOps, ScanOf, TickName, ManualName;
    ghost var names := NamesOf(active);
    status, requeue := s.status, None;
    ok, done := RunNow(api, hash, s);
    RanMore(old(api.store), api.store, ManualOps(hash, s), TickOps(hash, s, names, now), done);
    if !ok {
      return;
    }
    var manual := [];
    if s.spec.runNow != "" && s.spec.runNow != s.status.lastManualTrigger {
      manual := [ManualName(hash, s.spec.name, s.spec.runNow)];
      status := status.(lastManualTrigger := s.spec.runNow);
    }
    status := status.(active := NamesOf(active) + manual);
    if !s.spec.suspend && s.spec.schedule.Unparsable? {
      status := status.(scheduleValid := Some(false));
    }
    if !s.spec.suspend && s.spec.schedule.Cron? {
      ghost var mid, step := api.store, 0;
      var lastScheduleTime, fired;
      ok, lastScheduleTime, fired, requeue, step := HandleSchedule(api, hash, s, active, now);
      RanThen(old(api.store), mid, api.store, ManualOps(hash, s), TickOps(hash, s, names, now), step);
      done := |ManualOps(hash, s)| + step;
      status := status.(scheduleValid := Some(true), lastScheduleTime := lastScheduleTime);
      if fired.Some? {
        status := status.(active := status.active + [fired.value]);
      }
    }
  }

  method TriggerAndCommit(api: SuiteApi, hash: string -> string, s: Suite, active: seq<Listed>, now: int)
    returns (ok: bool, requeue: Option<int>, ghost done: nat)
    modifies api
    ensures Ran(old(api.store), api.store, LaterOps(hash, s, NamesOf(active), now), done)
    ensures ok ==> done == |LaterOps(hash, s, NamesOf(active), now)| && requeue == Requeue(s, now)
    ensures ok ==> old(api.store.suite.version) == s.version
  {
    hide ManualOps, TickOps, StatusAfter, ExecAll;
    ghost var ops := ManualOps(hash, s) + TickOps(hash, s, NamesOf(active), now);
    ghost var last := [UpdateStatus(StatusAfter(hash, s, NamesOf(active), now), s.version)];
    var status;
    ok, status, requeue, done := TriggerAndTick(api, hash, s, active, now);
    LaterOpsLeaveSuite(hash, old(api.store), s, NamesOf(active), now, done);
    RanMore(old(api.store), api.store, ops, last, done);
    if !ok {
      return;
    }
    ghost var landed;
    RanNext(old(api.store), api.store, ops + last, |ops|);
    ok, landed := api.UpdateSuiteStatus(status, s.version);
    done := if landed then |ops| + 1 else |ops|;
  }

  datatype Read = Missing | Unreadable | Readable(suite: Suite)

  /** What a pass that got past its two reads did: the first `done` writes of a plan. */
  ghost predicate Followed(hash: string -> string, before: Store, after: Store, s: Suite, listed: seq<Listed>,
                           gone: seq<Listed>, gone': seq<Listed>, done: nat)
  {
    && Excess(Bucket(listed, IsSucceeded), SuccessLimit(s.spec), gone)
    && Excess(Bucket(listed, IsFailed), FailedLimit(s.spec), gone')
    && Ran(before, after, PlanFor(hash, before.clock, s, listed, gone, gone'), done)
  }

  ghost function PlanFor(hash: string -> string, now: int, s: Suite, listed: seq<Listed>,
                         gone: seq<Listed>, gone': seq<Listed>): seq<Op>
  {
    Plan(hash, s, NamesOf(Bucket(listed, IsActive)), NamesOf(gone) + NamesOf(gone'), now)
  }

  lemma PlanParts(hash: string -> string, now: int, s: Suite, listed: seq<Listed>, gone: seq<Listed>, gone': seq<Listed>)
    ensures PlanFor(hash, now, s, listed, gone, gone')
      == CleanupOps(gone, gone') + LaterOps(hash, s, NamesOf(Bucket(listed, IsActive)), now)
  {
    hide ManualOps, TickOps, StatusAfter, Bucket;
    assert Deletes(NamesOf(gone) + NamesOf(gone')) == CleanupOps(gone, gone');
  }

  lemma StopsInCleanup(hash: string -> string, before: Store, after: Store, s: Suite, listed: seq<Listed>,
                       gone: seq<Listed>, gone': seq<Listed>, done: nat)
    requires Excess(Bucket(listed, IsSucceeded), SuccessLimit(s.spec), gone)
    requires Excess(Bucket(listed, IsFailed), FailedLimit(s.spec), gone')
    requires Ran(before, after, CleanupOps(gone, gone'), done)
    ensures Followed(hash, before, after, s, listed, gone, gone', done)
  {
    hide Excess, Bucket, Ran, CleanupOps, PlanFor, LaterOps;
    PlanParts(hash, before.clock, s, listed, gone, gone');
    RanMore(before, after, CleanupOps(gone, gone'), LaterOps(hash, s, NamesOf(Bucket(listed, IsActive)), before.clock), done);
  }

  lemma GoesOn(hash: string -> string, before: Store, mid: Store, after: Store, s: Suite, listed: seq<Listed>,
               gone: seq<Listed>, gone': seq<Listed>, step: nat)
    requires Excess(Bucket(listed, IsSucceeded), SuccessLimit(s.spec), gone)
    requires Excess(Bucket(listed, IsFailed), FailedLimit(s.spec), gone')
    requires Ran(before, mid, CleanupOps(gone, gone'), |CleanupOps(gone, gone')|)
    requires Ran(mid, after, LaterOps(hash, s, NamesOf(Bucket(listed, IsActive)), before.clock), step)
    ensures Followed(hash, before, after, s, listed, gone, gone', |CleanupOps(gone, gone')| + step)
    ensures |PlanFor(hash, before.clock, s, listed, gone, gone')|
      == |CleanupOps(gone, gone')| + |LaterOps(hash, s, NamesOf(Bucket(listed, IsActive)), before.clock)|
  {
    hide Excess, Bucket, Ran, CleanupOps, PlanFor, LaterOps;
    PlanParts(hash, before.clock, s, listed, gone, gone');
    RanThen(before, mid, after, CleanupOps(gone, gone'), LaterOps(hash, s, NamesOf(Bucket(listed, IsActive)), before.clock), step);
  }

  /** A pass over a suite that was found, once its runs are listed. */
  method Manage(api: SuiteApi, hash: string -> string, s: Suite, listed: seq<Listed>)
    returns (ok: bool, requeue: Option<int>, ghost gone: seq<Listed>, ghost gone': seq<Listed>, ghost done: nat)
    requires UniqueNames(listed)
    modifies api
    ensures Followed(hash, old(api.store), api.store, s, listed, gone, gone', done)
    ensures ok ==>
      && done == |PlanFor(hash, old(api.store).clock, s, listed, gone, gone')|
      && old(api.store).suite.version == s.version
      && requeue == Requeue(s, old(api.store).clock)
  {
    hide Ran, Excess, Bucket, CleanupOps, LaterOps, PlanFor, Requeue, Followed, NamesOf, UniqueNames;
    requeue := None;
    var active, succeeded, failed := Classify(listed);
    BucketUnique(listed, IsSucceeded);
    BucketUnique(listed, IsFailed);
    ok, gone, gone', done := CollectHistory(api, s.spec, succeeded, failed);
    if !ok {
      StopsInCleanup(hash, old(api.store), api.store, s, listed, gone, gone', done);
      return;
    }
    ghost var mid, step := api.store, 0;
    ok, requeue, step := TriggerAndCommit(api, hash, s, active, api.store.clock);
    GoesOn(hash, old(api.store), mid, api.store, s, listed, gone, gone', step);
    done := done + step;
  }

  method Reconcile(api: SuiteApi, registry: Metrics.Registry, key: Metrics.SuiteKey, hash: string -> string,
                   read: Read, list: Option<seq<Listed>>)
    returns (ok: bool, requeue: Option<int>, ghost gone: seq<Listed>, ghost gone': seq<Listed>, ghost done: nat)
    requires list.Some? ==> UniqueNames(list.value)
    modifies api, registry
    ensures read.Missing? ==>
      && ok && api.store == old(api.store)
      && Metrics.Replaced(old(registry.lastResult), registry.lastResult, key, map[])
      && registry.lastCompletion == old(registry.lastCompletion) - {key}
    ensures !read.Missing? ==>
      registry.lastResult == old(registry.lastResult) && registry.lastCompletion == old(registry.lastCompletion)
    ensures registry.runsTotal == old(registry.runsTotal) && registry.runDurations == old(registry.runDurations)
    ensures registry.Counted() == old(registry.Counted())
    ensures read.Unreadable? || (read.Readable? && list.None?) ==> !ok && api.store == old(api.store)
    ensures read.Readable? && list.Some? ==>
      && Followed(hash, old(api.store), api.store, read.suite, list.value, gone, gone', done)
      && (ok ==> done == |PlanFor(hash, old(api.store).clock, read.suite, list.value, gone, gone')|
                 && old(api.store).suite.version == read.suite.version
                 && requeue == Requeue(read.suite, old(api.store).clock))
  {
    requeue, gone, gone', done := None, [], [], 0;
    if read.Missing? {
      registry.DeleteSuite(key);
      return true, requeue, gone, gone', done;
    }
    if read.Unreadable? || list.None? {
      return false, requeue, gone, gone', done;
    }
    ok, requeue, gone, gone', done := Manage(api, hash, read.suite, list.value);
  }
}
