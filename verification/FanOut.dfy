/** The bounded fan-out over a runner's checks: tasks start in order, at most `limit` at a
    time, and finish in any order, each writing its own slot of the result list. */
module FanOut {
  import opened Types
  import opened RunnerPod

  const DEFAULT_CONCURRENCY := 8

  function Limit(maxConcurrent: int): nat {
    if maxConcurrent <= 0 then DEFAULT_CONCURRENCY else maxConcurrent
  }

  // ---------------------------------------------------------------- schedules

  datatype TaskEvent = Launch(i: nat) | Finish(i: nat)

  /** How far a fan-out has come: the next task to launch, and the tasks in flight. */
  datatype Progress = Progress(next: nat, running: set<nat>)

  /** Launching waits for a free place; any task in flight may finish. */
  predicate CanHappen(p: Progress, e: TaskEvent, n: nat, limit: nat) {
    match e
    case Launch(i) => i == p.next < n && |p.running| < limit
    case Finish(i) => i in p.running
  }

  function Happen(p: Progress, e: TaskEvent): Progress {
    match e
    case Launch(i) => Progress(i + 1, p.running + {i})
    case Finish(i) => p.(running := p.running - {i})
  }

  function Reached(schedule: seq<TaskEvent>): Progress {
    if |schedule| == 0 then Progress(0, {})
    else Happen(Reached(schedule[..|schedule| - 1]), schedule[|schedule| - 1])
  }

  ghost predicate Possible(n: nat, limit: nat, schedule: seq<TaskEvent>) {
    forall k :: 0 <= k < |schedule| ==> CanHappen(Reached(schedule[..k]), schedule[k], n, limit)
  }

  /** The join returns: everything was launched and nothing is in flight. */
  ghost predicate Complete(n: nat, limit: nat, schedule: seq<TaskEvent>) {
    Possible(n, limit, schedule) && Reached(schedule) == Progress(n, {})
  }

  function Launches(schedule: seq<TaskEvent>): nat {
    if |schedule| == 0 then 0
    else Launches(schedule[..|schedule| - 1]) + if schedule[|schedule| - 1].Launch? then 1 else 0
  }

  lemma PossiblePrefix(n: nat, limit: nat, schedule: seq<TaskEvent>, k: nat)
    requires Possible(n, limit, schedule) && k <= |schedule|
    ensures Possible(n, limit, schedule[..k])
  {
    forall j | 0 <= j < k
      ensures CanHappen(Reached(schedule[..k][..j]), schedule[..k][j], n, limit)
    {
      assert schedule[..k][..j] == schedule[..j];
    }
  }

  /** What has been launched is what lies below `next`, once each; what is in flight was
      launched and has not finished; what has finished did so once. */
  ghost predicate CountedAs(p: Progress, events: multiset<TaskEvent>) {
    && (forall i :: i in p.running ==> i < p.next)
    && (forall i: nat :: events[Launch(i)] == if i < p.next then 1 else 0)
    && (forall i: nat :: events[Finish(i)] == if i < p.next && i !in p.running then 1 else 0)
  }

  ghost predicate Counted(schedule: seq<TaskEvent>) {
    CountedAs(Reached(schedule), multiset(schedule))
  }

  lemma CountedAfter(p: Progress, events: multiset<TaskEvent>, e: TaskEvent, n: nat, limit: nat)
    requires CountedAs(p, events) && CanHappen(p, e, n, limit)
    ensures CountedAs(Happen(p, e), events + multiset{e})
  {
    var after, p' := events + multiset{e}, Happen(p, e);
    forall i: nat
      ensures after[Launch(i)] == if i < p'.next then 1 else 0
      ensures after[Finish(i)] == if i < p'.next && i !in p'.running then 1 else 0
    {
      assert events[Launch(i)] == if i < p.next then 1 else 0;
      assert events[Finish(i)] == if i < p.next && i !in p.running then 1 else 0;
    }
  }

  lemma CountedStep(n: nat, limit: nat, front: seq<TaskEvent>, e: TaskEvent)
    requires Counted(front) && CanHappen(Reached(front), e, n, limit)
    ensures Counted(front + [e]) && Reached(front + [e]) == Happen(Reached(front), e)
  {
    var schedule := front + [e];
    assert schedule[..|front|] == front;
    assert Reached(schedule) == Happen(Reached(front), e);
    hide Reached, CountedAs, CanHappen, Happen;
    CountedAfter(Reached(front), multiset(front), e, n, limit);
  }

  lemma NothingCounted()
    ensures Counted([]) && Reached([]) == Progress(0, {})
  {
  }

  lemma {:induction false} EventsCounted(n: nat, limit: nat, schedule: seq<TaskEvent>)
    requires Possible(n, limit, schedule)
    ensures Counted(schedule) && Reached(schedule).next <= n
  {
    hide Counted, Reached;
    if |schedule| == 0 {
      NothingCounted();
    } else {
      var front, e := schedule[..|schedule| - 1], schedule[|schedule| - 1];
      PossiblePrefix(n, limit, schedule, |schedule| - 1);
      EventsCounted(n, limit, front);
      assert CanHappen(Reached(front), e, n, limit);
      CountedStep(n, limit, front, e);
      assert schedule == front + [e];
    }
  }

  /** In every complete schedule each task is launched exactly once and finishes, writing
      its slot, exactly once. */
  lemma EachOnce(n: nat, limit: nat, schedule: seq<TaskEvent>, i: nat)
    requires Complete(n, limit, schedule)
    ensures multiset(schedule)[Launch(i)] == multiset(schedule)[Finish(i)] == if i < n then 1 else 0
  {
    EventsCounted(n, limit, schedule);
  }

  lemma ReachedNext(schedule: seq<TaskEvent>, k: nat)
    requires k < |schedule|
    ensures schedule[..k + 1] == schedule[..k] + [schedule[k]]
    ensures Reached(schedule[..k + 1]) == Happen(Reached(schedule[..k]), schedule[k])
    ensures Launches(schedule[..k + 1]) == Launches(schedule[..k]) + if schedule[k].Launch? then 1 else 0
  {
    hide Happen;
    assert schedule[..k + 1][..k] == schedule[..k];
  }

  /** One event of a schedule, and where it leads. */
  lemma EventAt(n: nat, limit: nat, schedule: seq<TaskEvent>, k: nat)
    requires Possible(n, limit, schedule) && k < |schedule|
    ensures schedule[..k + 1] == schedule[..k] + [schedule[k]]
    ensures var p := Reached(schedule[..k]);
      && CanHappen(p, schedule[k], n, limit) && Reached(schedule[..k + 1]) == Happen(p, schedule[k])
      && p.next <= n && (forall i :: i in p.running ==> i < p.next)
      && Launches(schedule[..k + 1]) == Launches(schedule[..k]) + if schedule[k].Launch? then 1 else 0
  {
    hide Reached, Launches, Happen, CanHappen;
    PossiblePrefix(n, limit, schedule, k);
    EventsCounted(n, limit, schedule[..k]);
    ReachedNext(schedule, k);
  }

  /** At every moment of every schedule the tasks launched and not finished are those in
      flight, and never more than the limit. */
  lemma {:induction false} NeverAboveLimit(n: nat, limit: nat, schedule: seq<TaskEvent>, k: nat)
    requires Possible(n, limit, schedule) && k <= |schedule|
    ensures 2 * Launches(schedule[..k]) - k == |Reached(schedule[..k]).running| <= limit
    decreases k
  {
    if k > 0 {
      hide Possible, Reached, Launches;
      NeverAboveLimit(n, limit, schedule, k - 1);
      EventAt(n, limit, schedule, k - 1);
    }
  }

  /** Tasks still to launch count twice, tasks in flight once. */
  function Pending(n: nat, p: Progress): int {
    2 * (n - p.next) + |p.running|
  }

  lemma {:induction false} EveryEventCounts(n: nat, limit: nat, schedule: seq<TaskEvent>, k: nat)
    requires Possible(n, limit, schedule) && k <= |schedule|
    ensures k + Pending(n, Reached(schedule[..k])) == 2 * n
    decreases k
  {
    if k > 0 {
      hide Possible, Reached, Launches;
      EveryEventCounts(n, limit, schedule, k - 1);
      EventAt(n, limit, schedule, k - 1);
    }
  }

  /** The join always comes: no schedule exceeds 2n events, one is complete exactly when
      it has that many, and until then something can happen next. */
  lemma JoinDrains(n: nat, limit: nat, schedule: seq<TaskEvent>)
    requires Possible(n, limit, schedule) && limit > 0
    ensures |schedule| <= 2 * n
    ensures Complete(n, limit, schedule) <==> |schedule| == 2 * n
    ensures !Complete(n, limit, schedule) ==> exists e :: CanHappen(Reached(schedule), e, n, limit)
  {
    EveryEventCounts(n, limit, schedule, |schedule|);
    assert schedule[..|schedule|] == schedule;
    EventsCounted(n, limit, schedule);
    hide Possible, Reached, Counted;
    var p := Reached(schedule);
    if p.running != {} {
      var i :| i in p.running;
      assert |p.running| > 0;
      assert CanHappen(p, Finish(i), n, limit);
    } else if p.next < n {
      assert CanHappen(p, Launch(p.next), n, limit);
    }
  }

  ghost predicate AllLaunched(schedule: seq<TaskEvent>, i: nat) {
    forall j: nat :: j < i ==> Launch(j) in schedule
  }

  /** What may happen next, in terms of what has: a task is launched in turn and only while
      fewer than the limit are in flight; any task launched and not finished may finish. */
  lemma NextEvents(n: nat, limit: nat, schedule: seq<TaskEvent>, e: TaskEvent)
    requires Possible(n, limit, schedule)
    ensures e.Launch? ==> (Possible(n, limit, schedule + [e]) <==>
      && e.i < n && e !in schedule && AllLaunched(schedule, e.i)
      && 2 * Launches(schedule) - |schedule| < limit)
    ensures e.Finish? ==> (Possible(n, limit, schedule + [e]) <==> Launch(e.i) in schedule && e !in schedule)
  {
    hide Possible, Reached, Launches, Counted, AllLaunched;
    EventsCounted(n, limit, schedule);
    NeverAboveLimit(n, limit, schedule, |schedule|);
    assert schedule[..|schedule|] == schedule;
    OneMoreEvent(n, limit, schedule, e);
    EventHappened(schedule, e.i);
    InTurn(schedule, e.i);
    InFlightBelow(schedule);
  }

  lemma InFlightBelow(schedule: seq<TaskEvent>)
    requires Counted(schedule)
    ensures forall i :: i in Reached(schedule).running ==> i < Reached(schedule).next
  {
  }

  lemma InTurn(schedule: seq<TaskEvent>, i: nat)
    requires Counted(schedule)
    ensures i == Reached(schedule).next <==> Launch(i) !in schedule && AllLaunched(schedule, i)
  {
    hide Counted, Reached;
    var next := Reached(schedule).next;
    EventHappened(schedule, i);
    EventHappened(schedule, next);
    forall j: nat | j < next
      ensures Launch(j) in schedule
    {
      EventHappened(schedule, j);
    }
  }

  lemma EventHappened(schedule: seq<TaskEvent>, i: nat)
    requires Counted(schedule)
    ensures var p := Reached(schedule);
      && (Launch(i) in schedule <==> i < p.next)
      && (Finish(i) in schedule <==> i < p.next && i !in p.running)
  {
    var events := multiset(schedule);
    assert Launch(i) in schedule <==> events[Launch(i)] > 0;
    assert Finish(i) in schedule <==> events[Finish(i)] > 0;
  }

  lemma OneMoreEvent(n: nat, limit: nat, schedule: seq<TaskEvent>, e: TaskEvent)
    requires Possible(n, limit, schedule)
    ensures Possible(n, limit, schedule + [e]) <==> CanHappen(Reached(schedule), e, n, limit)
  {
    hide Reached, CanHappen;
    var longer := schedule + [e];
    assert longer[..|schedule|] == schedule;
    forall k | 0 <= k < |schedule|
      ensures longer[..k] == schedule[..k] && longer[k] == schedule[k]
    {
    }
  }

  /** The configured limit, or 8, is what schedules are held to, and with enough checks some
      schedule has as many in flight. */
  lemma LimitIsReached(n: nat, maxConcurrent: int) returns (schedule: seq<TaskEvent>)
    ensures Limit(maxConcurrent) == if maxConcurrent > 0 then maxConcurrent else 8
    ensures Possible(n, Limit(maxConcurrent), schedule)
    ensures |schedule| == Launches(schedule) == if n < Limit(maxConcurrent) then n else Limit(maxConcurrent)
  {
    var limit := Limit(maxConcurrent);
    schedule := [];
    NothingLaunched(n, limit);
    hide Possible, Launches;
    while |schedule| < n && |schedule| < limit
      invariant |schedule| == Launches(schedule) <= limit && |schedule| <= n && Possible(n, limit, schedule)
      invariant OnlyLaunched(schedule)
    {
      var e := Launch(|schedule|);
      NextLaunched(schedule);
      NextEvents(n, limit, schedule, e);
      schedule := schedule + [e];
    }
  }

  /** The launches of tasks 0, 1, 2 and so on. */
  ghost predicate OnlyLaunched(schedule: seq<TaskEvent>) {
    forall k: nat :: k < |schedule| ==> schedule[k] == Launch(k)
  }

  lemma NothingLaunched(n: nat, limit: nat)
    ensures Possible(n, limit, []) && Launches([]) == 0
  {
  }

  lemma NextLaunched(schedule: seq<TaskEvent>)
    requires OnlyLaunched(schedule)
    ensures AllLaunched(schedule, |schedule|) && Launch(|schedule|) !in schedule
    ensures OnlyLaunched(schedule + [Launch(|schedule|)]) && Launches(schedule + [Launch(|schedule|)]) == Launches(schedule) + 1
  {
    var longer := schedule + [Launch(|schedule|)];
    assert longer[..|longer| - 1] == schedule;
    forall j: nat | j < |schedule|
      ensures Launch(j) in schedule
    {
      assert schedule[j] == Launch(j);
    }
  }

  // -------------------------------------------------------------- the execution

  /** Task `i` ran its own check against its own probes and produced `res`. */
  ghost predicate TaskOutcome(registry: set<ProbeType>, spec: CheckSpec, i: nat, probe: nat -> nat -> Probe,
                              cancelled: nat -> nat -> bool, res: CheckResult) {
    exists ev :: Probed(registry, spec, probe(i), cancelled(i), ev, res)
  }

  /** The tasks of one fan-out and the result list they share. */
  class TaskGroup {
    const limit: nat
    const results: array<CheckResult>
    var progress: Progress
    ghost var events: seq<TaskEvent>

    constructor (limit: nat, n: nat)
      ensures this.limit == limit && fresh(results) && results.Length == n
      ensures progress == Progress(0, {}) && events == []
    {
      this.limit := limit;
      results := new CheckResult[n](_ => CheckResult("", false, Failure, 0, "", None));
      progress, events := Progress(0, {}), [];
    }

    method Go(i: nat)
      requires |progress.running| < limit && i == progress.next
      modifies this
      ensures events == old(events) + [Launch(i)] && progress == Happen(old(progress), Launch(i))
    {
      progress := Progress(i + 1, progress.running + {i});
      events := events + [Launch(i)];
    }

    /** A task's last act: its result goes into its own slot. */
    method Done(i: nat, res: CheckResult)
      requires i in progress.running && i < results.Length
      modifies this, results
      ensures events == old(events) + [Finish(i)] && progress == Happen(old(progress), Finish(i))
      ensures results[..] == old(results[..])[i := res]
    {
      results[i] := res;
      progress := progress.(running := progress.running - {i});
      events := events + [Finish(i)];
    }
  }

  /** The slots of all finished tasks hold their outcomes. */
  ghost predicate Filled(registry: set<ProbeType>, checks: seq<CheckSpec>, probe: nat -> nat -> Probe,
                         cancelled: nat -> nat -> bool, p: Progress, slots: seq<CheckResult>)
    requires |slots| == |checks|
  {
    forall i: nat :: i < p.next && i !in p.running && i < |checks| ==>
      TaskOutcome(registry, checks[i], i, probe, cancelled, slots[i])
  }

  /** The next task starts, or a running one executes its check and writes its slot. */
  method TakeEvent(group: TaskGroup, registry: set<ProbeType>, checks: seq<CheckSpec>, e: TaskEvent,
                   probe: nat -> nat -> Probe, cancelled: nat -> nat -> bool)
    requires group.results.Length == |checks| && CanHappen(group.progress, e, |checks|, group.limit)
    requires forall i :: i in group.progress.running ==> i < |checks|
    requires Filled(registry, checks, probe, cancelled, group.progress, group.results[..])
    modifies group, group.results
    ensures group.events == old(group.events) + [e] && group.progress == Happen(old(group.progress), e)
    ensures Filled(registry, checks, probe, cancelled, group.progress, group.results[..])
  {
    hide Filled, TaskOutcome;
    ghost var before, slots := group.progress, group.results[..];
    match e
    case Launch(i) =>
      group.Go(i);
      FilledAtLaunch(registry, checks, probe, cancelled, before, i, slots);
    case Finish(i) =>
      var res := ExecuteCheck(registry, checks[i], probe(i), cancelled(i));
      group.Done(i, res);
      FilledAtFinish(registry, checks, probe, cancelled, before, i, slots, res);
  }

  /** Executes the checks under any schedule: what happens is exactly that schedule, and
      each slot ends up with its own task's outcome. */
  method ExecuteChecks(registry: set<ProbeType>, checks: seq<CheckSpec>, maxConcurrent: int, schedule: seq<TaskEvent>,
                       probe: nat -> nat -> Probe, cancelled: nat -> nat -> bool)
    returns (results: seq<CheckResult>, group: TaskGroup)
    requires Complete(|checks|, Limit(maxConcurrent), schedule)
    ensures fresh(group) && group.events == schedule && group.results[..] == results
    ensures |results| == |checks|
    ensures forall i: nat :: i < |checks| ==> TaskOutcome(registry, checks[i], i, probe, cancelled, results[i])
  {
    hide Possible, Reached, Filled, TaskOutcome, CanHappen, Happen, Launches, CountedAs;
    var limit := maxConcurrent;
    if limit <= 0 {
      limit := DEFAULT_CONCURRENCY;
    }
    group := new TaskGroup(limit, |checks|);
    NothingFilled(registry, checks, probe, cancelled, group.results[..]);
    WholeSchedule(schedule);
    for k := 0 to |schedule|
      invariant fresh(group) && fresh(group.results) && group.limit == limit && group.results.Length == |checks|
      invariant group.events == schedule[..k] && group.progress == Reached(schedule[..k])
      invariant Filled(registry, checks, probe, cancelled, group.progress, group.results[..])
    {
      EventAt(|checks|, limit, schedule, k);
      TakeEvent(group, registry, checks, schedule[k], probe, cancelled);
    }
    results := group.results[..];
    AllFilled(registry, checks, probe, cancelled, results);
  }

  lemma WholeSchedule(schedule: seq<TaskEvent>)
    ensures schedule[..0] == [] && schedule[..|schedule|] == schedule
  {
  }

  lemma NothingFilled(registry: set<ProbeType>, checks: seq<CheckSpec>, probe: nat -> nat -> Probe,
                      cancelled: nat -> nat -> bool, slots: seq<CheckResult>)
    requires |slots| == |checks|
    ensures Filled(registry, checks, probe, cancelled, Reached([]), slots) && Reached([]) == Progress(0, {})
  {
  }

  lemma FilledAtLaunch(registry: set<ProbeType>, checks: seq<CheckSpec>, probe: nat -> nat -> Probe,
                       cancelled: nat -> nat -> bool, p: Progress, i: nat, slots: seq<CheckResult>)
    requires |slots| == |checks| && i == p.next && Filled(registry, checks, probe, cancelled, p, slots)
    ensures Filled(registry, checks, probe, cancelled, Happen(p, Launch(i)), slots)
  {
    hide TaskOutcome;
  }

  lemma FilledAtFinish(registry: set<ProbeType>, checks: seq<CheckSpec>, probe: nat -> nat -> Probe,
                       cancelled: nat -> nat -> bool, p: Progress, i: nat, slots: seq<CheckResult>, res: CheckResult)
    requires |slots| == |checks| && i < |checks| && Filled(registry, checks, probe, cancelled, p, slots)
    requires exists ev :: Probed(registry, checks[i], probe(i), cancelled(i), ev, res)
    ensures Filled(registry, checks, probe, cancelled, Happen(p, Finish(i)), slots[i := res])
  {
    assert TaskOutcome(registry, checks[i], i, probe, cancelled, res);
    hide TaskOutcome, Probed;
  }

  lemma AllFilled(registry: set<ProbeType>, checks: seq<CheckSpec>, probe: nat -> nat -> Probe,
                  cancelled: nat -> nat -> bool, slots: seq<CheckResult>)
    requires |slots| == |checks| && Filled(registry, checks, probe, cancelled, Progress(|checks|, {}), slots)
    ensures forall i: nat :: i < |checks| ==> TaskOutcome(registry, checks[i], i, probe, cancelled, slots[i])
  {
    hide TaskOutcome;
  }

  /** So the schedule makes no difference to the results. */
  lemma ScheduleIrrelevant(registry: set<ProbeType>, checks: seq<CheckSpec>, probe: nat -> nat -> Probe,
                           cancelled: nat -> nat -> bool, a: seq<CheckResult>, b: seq<CheckResult>)
    requires |a| == |b| == |checks|
    requires forall i: nat :: i < |checks| ==> TaskOutcome(registry, checks[i], i, probe, cancelled, a[i])
    requires forall i: nat :: i < |checks| ==> TaskOutcome(registry, checks[i], i, probe, cancelled, b[i])
    ensures a == b
  {
    forall i: nat | i < |checks|
      ensures a[i] == b[i]
    {
      var ev :| Probed(registry, checks[i], probe(i), cancelled(i), ev, a[i]);
      var ev' :| Probed(registry, checks[i], probe(i), cancelled(i), ev', b[i]);
      OneOutcome(registry, checks[i], probe(i), cancelled(i), ev, a[i], ev', b[i]);
    }
  }
}
