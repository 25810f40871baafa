/** One CheckRun over its whole life: the controller's passes, the runner pods, the
    Job controller, the clock and API failures interleave step by step. The controller
    reads runs and Jobs through caches that may lag the server but never go back. */
module CheckRunProtocol {
  import opened Types
  import opened RunnerPod
  import opened RunnerProcess
  import opened Aggregation
  import opened CheckRunController
  import Metrics

  // ------------------------------------------------------------------- state

  datatype PodId = PodId(runner: string, pod: string)
  datatype PodPhase = Starting | Reported | ExitedZero | Crashed

  /** The server, the clock and the pods at one moment. */
  datatype World = World(
    clock: int,
    accountPresent: bool,
    ctl: ControllerStatus,
    entries: Entries,
    jobs: map<string, JobStatus>,
    pods: map<PodId, PodPhase>,
    evidence: map<PodId, seq<Evidence>>)

  datatype Account = Unchecked | Present | Missing

  /** A pass in flight: it read the run as of moment `at` and the clock as `now`, and
      has gone through the first `next` runners. */
  datatype Pass =
    | Idle
    | Active(at: nat, now: int, account: Account, next: nat, seen: map<string, JobStatus>)

  /** Every moment so far, and how far the run and Job caches have advanced. */
  datatype Sys = Sys(hist: seq<World>, pass: Pass, runAt: nat, jobsAt: nat)

  function Now(s: Sys): World
    requires |s.hist| > 0
  {
    s.hist[|s.hist| - 1]
  }

  // ---------------------------------------------------------------- the steps

  /** Steps of the environment. */
  datatype WorldEvent =
    | Tick(to: int)
    | SetAccount(present: bool)
    | PodStart(id: PodId)
    | PodReport(id: PodId, body: PodResult, found: seq<Evidence>)
    | PodExit(id: PodId)
    | PodCrash(id: PodId)
    | JobComplete(index: nat)
    | JobFail(runner: string)

  datatype Event =
    | Environment(event: WorldEvent)
    | Begin(at: nat)
    | CheckAccount
    | SeeJob(at: nat)
    | MakeJob(at: nat)
    | Abandon
    | ApplyStatus

  function Exited(w: World, runner: string): set<string> {
    set id | id in w.pods && id.runner == runner && w.pods[id] == ExitedZero :: id.pod
  }

  predicate InPhase(w: World, id: PodId, p: PodPhase) {
    id in w.pods && w.pods[id] == p
  }

  predicate Unreported(w: World, id: PodId) {
    InPhase(w, id, Starting) || (InPhase(w, id, Crashed) && id.pod !in PodsOf(w.entries, id.runner))
  }

  /** A pod reports once, its whole result set, and a report sent before a crash may still
      land after it; it exits 0 only after the report has landed; a Job is complete once as many pods as replicas exited 0. */
  ghost predicate WorldEnabled(t: Template, w: World, e: WorldEvent) {
    match e
    case Tick(to) => to >= w.clock
    case SetAccount(_) => true
    case PodStart(id) => id.runner in w.jobs && id !in w.pods
    case PodReport(id, body, found) => Unreported(w, id) && GenuineResult(t.checks, id.runner, found, body)
    case PodExit(id) => InPhase(w, id, Reported)
    case PodCrash(id) => InPhase(w, id, Starting) || InPhase(w, id, Reported)
    case JobComplete(i) =>
      i < |t.runners| && t.runners[i].name in w.jobs && !w.jobs[t.runners[i].name].failed
      && |Exited(w, t.runners[i].name)| >= Replicas(t.runners[i])
    case JobFail(r) => r in w.jobs && !w.jobs[r].complete
  }

  function WorldNext(t: Template, w: World, e: WorldEvent): World
    requires e.JobComplete? ==> e.index < |t.runners|
  {
    match e
    case Tick(to) => w.(clock := to)
    case SetAccount(p) => w.(accountPresent := p)
    case PodStart(id) => w.(pods := w.pods[id := Starting])
    case PodReport(id, body, found) =>
      w.(pods := w.pods[id := if InPhase(w, id, Crashed) then Crashed else Reported], evidence := w.evidence[id := found],
         entries := w.entries[id.runner := PodsOf(w.entries, id.runner)[id.pod := body]])
    case PodExit(id) => w.(pods := w.pods[id := ExitedZero])
    case PodCrash(id) => w.(pods := w.pods[id := Crashed])
    case JobComplete(i) => w.(jobs := w.jobs[t.runners[i].name := JobStatus(true, false)])
    case JobFail(r) => w.(jobs := w.jobs[r := JobStatus(false, true)])
  }

  ghost function DecisionOf(t: Template, s: Sys): Decision
    requires s.pass.Active? && s.pass.at < |s.hist|
  {
    if s.pass.account == Missing then MISSING_ACCOUNT
    else Decide(t, s.hist[s.pass.at].ctl, s.hist[s.pass.at].entries, s.pass.seen, s.pass.now)
  }

  ghost predicate Enabled(t: Template, s: Sys, e: Event)
    requires |s.hist| > 0
  {
    match e
    case Environment(we) => WorldEnabled(t, Now(s), we)
    case Begin(at) => s.pass.Idle? && s.runAt <= at < |s.hist|
    case CheckAccount => s.pass.Active? && s.pass.account == Unchecked
    case SeeJob(at) =>
      && s.pass.Active? && s.pass.account == Present && s.pass.next < |t.runners|
      && s.jobsAt <= at < |s.hist| && t.runners[s.pass.next].name in s.hist[at].jobs
    case MakeJob(at) =>
      && s.pass.Active? && s.pass.account == Present && s.pass.next < |t.runners|
      && s.jobsAt <= at < |s.hist| && t.runners[s.pass.next].name !in s.hist[at].jobs
    case Abandon => s.pass.Active?
    case ApplyStatus =>
      && s.pass.Active? && s.pass.at < |s.hist|
      && (s.pass.account == Missing || (s.pass.account == Present && s.pass.next == |t.runners|))
  }

  /** A pass over a finished run stops at once; a failed call abandons the pass, with
      or without its last write having landed. */
  ghost function Next(t: Template, s: Sys, e: Event): Sys
    requires |s.hist| > 0 && Enabled(t, s, e)
  {
    match e
    case Environment(we) => s.(hist := s.hist + [WorldNext(t, Now(s), we)])
    case Begin(at) =>
      var ctl := s.hist[at].ctl;
      s.(runAt := at,
         pass := if IsTerminal(ctl.phase) then Idle
                 else Active(at, Now(s).clock, if ctl.startTime.Some? then Present else Unchecked, 0, map[]))
    case CheckAccount => s.(pass := s.pass.(account := if Now(s).accountPresent then Present else Missing))
    case SeeJob(at) =>
      var r := t.runners[s.pass.next].name;
      s.(jobsAt := at, pass := s.pass.(next := s.pass.next + 1, seen := s.pass.seen[r := s.hist[at].jobs[r]]))
    case MakeJob(at) =>
      var r := t.runners[s.pass.next].name;
      s.(jobsAt := at, pass := s.pass.(next := s.pass.next + 1, seen := s.pass.seen[r := FRESH_JOB]),
         hist := s.hist + [Now(s).(jobs := WithJob(Now(s).jobs, r))])
    case Abandon => s.(pass := Idle)
    case ApplyStatus =>
      s.(pass := Idle,
         hist := s.hist + [Now(s).(ctl := StatusFor(DecisionOf(t, s), s.hist[s.pass.at].ctl, s.pass.now))])
  }

  ghost predicate Initial(s: Sys) {
    && |s.hist| == 1 && s.pass == Idle && s.runAt == s.jobsAt == 0
    && var w := s.hist[0]; w.ctl == INITIAL_STATUS && w.entries == map[] && w.jobs == map[] && w.pods == map[] && w.evidence == map[]
  }

  ghost predicate Step(t: Template, s: Sys, s': Sys) {
    |s.hist| > 0 && exists e :: Enabled(t, s, e) && s' == Next(t, s, e)
  }

  ghost predicate Behavior(t: Template, tr: seq<Sys>) {
    && |tr| > 0 && Initial(tr[0])
    && forall i :: 0 <= i < |tr| - 1 ==> Step(t, tr[i], tr[i + 1])
  }

  // ----------------------------------------------------- what a world promises

  ghost predicate Backed(t: Template, w: World, r: string, p: string) {
    && IsRunner(t, r)
    && PodId(r, p) in w.pods && w.pods[PodId(r, p)] != Starting && PodId(r, p) in w.evidence
    && p in PodsOf(w.entries, r)
    && GenuineResult(t.checks, r, w.evidence[PodId(r, p)], PodsOf(w.entries, r)[p])
  }

  ghost predicate GoodWorld(t: Template, w: World) {
    && (forall r :: r in w.jobs ==> IsRunner(t, r) && !(w.jobs[r].complete && w.jobs[r].failed))
    && (forall id :: id in w.pods ==> IsRunner(t, id.runner))
    && (forall id :: InPhase(w, id, Reported) || InPhase(w, id, ExitedZero) ==>
          id.pod in PodsOf(w.entries, id.runner))
    && (forall r, p :: p in PodsOf(w.entries, r) ==> Backed(t, w, r, p))
    && (forall i :: 0 <= i < |t.runners| && t.runners[i].name in w.jobs && w.jobs[t.runners[i].name].complete ==>
          |Exited(w, t.runners[i].name)| >= Replicas(t.runners[i]))
  }

  ghost predicate JobsGrow(a: map<string, JobStatus>, b: map<string, JobStatus>) {
    forall r :: r in a ==> r in b && (a[r].complete ==> b[r].complete) && (a[r].failed ==> b[r].failed)
  }

  ghost predicate Grows(a: World, b: World) {
    a.clock <= b.clock && JobsGrow(a.jobs, b.jobs) && EntriesGrow(a.entries, b.entries)
  }

  ghost predicate ExitsKept(a: World, b: World) {
    forall id :: InPhase(a, id, ExitedZero) ==> InPhase(b, id, ExitedZero)
  }

  lemma ExitedGrows(a: World, b: World, r: string)
    requires ExitsKept(a, b)
    ensures |Exited(a, r)| <= |Exited(b, r)|
  {
    assert forall p :: p in Exited(a, r) ==> InPhase(a, PodId(r, p), ExitedZero);
    assert forall p :: InPhase(b, PodId(r, p), ExitedZero) ==> p in Exited(b, r) by {
      forall p | InPhase(b, PodId(r, p), ExitedZero) ensures p in Exited(b, r) {
        assert PodId(r, p).pod == p;
      }
    }
    SubsetSize(Exited(a, r), Exited(b, r));
  }

  lemma WorldStepPods(t: Template, w: World, e: WorldEvent)
    requires GoodWorld(t, w) && WorldEnabled(t, w, e)
    ensures ExitsKept(w, WorldNext(t, w, e))
    ensures forall id :: id in w.pods && w.pods[id] != Starting ==>
      id in WorldNext(t, w, e).pods && WorldNext(t, w, e).pods[id] != Starting
  {
  }

  /** A pod that has not reported has no entry. */
  lemma NotYetReported(t: Template, w: World, id: PodId)
    requires GoodWorld(t, w) && Unreported(w, id)
    ensures id.pod !in PodsOf(w.entries, id.runner)
  {
    assert id.pod in PodsOf(w.entries, id.runner) ==> Backed(t, w, id.runner, id.pod);
  }

  /** How a step changes one runner's entries: only a report adds, and only a new one. */
  lemma EntriesAfter(t: Template, w: World, e: WorldEvent, r: string)
    requires GoodWorld(t, w) && WorldEnabled(t, w, e)
    ensures var w' := WorldNext(t, w, e);
      if e.PodReport? && e.id.runner == r
      then PodsOf(w'.entries, r) == PodsOf(w.entries, r)[e.id.pod := e.body] && e.id.pod !in PodsOf(w.entries, r)
      else PodsOf(w'.entries, r) == PodsOf(w.entries, r)
  {
    hide GoodWorld, GenuineResult, Exited;
    if e.PodReport? {
      NotYetReported(t, w, e.id);
    }
  }

  lemma EntryStaysBacked(t: Template, w: World, e: WorldEvent, r: string, p: string)
    requires GoodWorld(t, w) && WorldEnabled(t, w, e) && p in PodsOf(WorldNext(t, w, e).entries, r)
    ensures Backed(t, WorldNext(t, w, e), r, p)
  {
    EntriesAfter(t, w, e, r);
    WorldStepPods(t, w, e);
    if p in PodsOf(w.entries, r) {
      assert Backed(t, w, r, p);
    }
  }

  lemma ExitsStay(t: Template, w: World, e: WorldEvent, i: nat)
    requires ValidTemplate(t) && GoodWorld(t, w) && WorldEnabled(t, w, e) && i < |t.runners|
    requires var r := t.runners[i].name; r in WorldNext(t, w, e).jobs && WorldNext(t, w, e).jobs[r].complete
    ensures |Exited(WorldNext(t, w, e), t.runners[i].name)| >= Replicas(t.runners[i])
  {
    WorldStepPods(t, w, e);
    ExitedGrows(w, WorldNext(t, w, e), t.runners[i].name);
    if e.JobComplete? && t.runners[e.index].name == t.runners[i].name {
      assert e.index == i;
    }
  }

  lemma WorldStepGrows(t: Template, w: World, e: WorldEvent)
    requires GoodWorld(t, w) && WorldEnabled(t, w, e)
    ensures Grows(w, WorldNext(t, w, e)) && WorldNext(t, w, e).ctl == w.ctl
  {
    var w' := WorldNext(t, w, e);
    forall r, p | p in PodsOf(w.entries, r)
      ensures p in PodsOf(w'.entries, r) && PodsOf(w'.entries, r)[p] == PodsOf(w.entries, r)[p]
    {
      EntriesAfter(t, w, e, r);
    }
  }

  lemma WorldStepReported(t: Template, w: World, e: WorldEvent, id: PodId)
    requires GoodWorld(t, w) && WorldEnabled(t, w, e)
    requires InPhase(WorldNext(t, w, e), id, Reported) || InPhase(WorldNext(t, w, e), id, ExitedZero)
    ensures id.pod in PodsOf(WorldNext(t, w, e).entries, id.runner)
  {
    EntriesAfter(t, w, e, id.runner);
  }

  lemma WorldStepNames(t: Template, w: World, e: WorldEvent)
    requires ValidTemplate(t) && GoodWorld(t, w) && WorldEnabled(t, w, e)
    ensures var w' := WorldNext(t, w, e);
      && (forall r :: r in w'.jobs ==> IsRunner(t, r) && !(w'.jobs[r].complete && w'.jobs[r].failed))
      && (forall id :: id in w'.pods ==> IsRunner(t, id.runner))
  {
    hide Backed, IsRunner, ValidTemplate;
    if e.JobComplete? { assert IsRunner(t, t.runners[e.index].name) by { RunnerNamed(t, e.index); } }
  }

  lemma RunnerNamed(t: Template, i: nat)
    requires i < |t.runners|
    ensures IsRunner(t, t.runners[i].name)
  {
  }

  lemma WorldStep(t: Template, w: World, e: WorldEvent)
    requires ValidTemplate(t) && GoodWorld(t, w) && WorldEnabled(t, w, e)
    ensures GoodWorld(t, WorldNext(t, w, e))
  {
    hide Backed, WorldNext, Exited, IsRunner, ValidTemplate;
    var w' := WorldNext(t, w, e);
    WorldStepNames(t, w, e);
    forall r, p | p in PodsOf(w'.entries, r)
      ensures Backed(t, w', r, p)
    {
      EntryStaysBacked(t, w, e, r, p);
    }
    forall i | 0 <= i < |t.runners| && t.runners[i].name in w'.jobs && w'.jobs[t.runners[i].name].complete
      ensures |Exited(w', t.runners[i].name)| >= Replicas(t.runners[i])
    {
      ExitsStay(t, w, e, i);
    }
    forall id | InPhase(w', id, Reported) || InPhase(w', id, ExitedZero)
      ensures id.pod in PodsOf(w'.entries, id.runner)
    {
      WorldStepReported(t, w, e, id);
    }
  }

  /** The controller's own writes: a fresh Job, or new status fields. */
  lemma ControllerWriteKeeps(t: Template, w: World, jobs: map<string, JobStatus>, ctl: ControllerStatus, r: string)
    requires GoodWorld(t, w) && IsRunner(t, r) && (jobs == w.jobs || jobs == WithJob(w.jobs, r))
    ensures GoodWorld(t, w.(jobs := jobs, ctl := ctl)) && Grows(w, w.(jobs := jobs, ctl := ctl))
  {
    var w' := w.(jobs := jobs, ctl := ctl);
    forall r, p | p in PodsOf(w'.entries, r)
      ensures Backed(t, w', r, p)
    {
      assert Backed(t, w, r, p);
    }
    forall i | 0 <= i < |t.runners| && t.runners[i].name in w'.jobs && w'.jobs[t.runners[i].name].complete
      ensures |Exited(w', t.runners[i].name)| >= Replicas(t.runners[i])
    {
      assert Exited(w', t.runners[i].name) == Exited(w, t.runners[i].name);
    }
  }

  // ----------------------------------------------- results land before completion

  ghost predicate JobsDone(t: Template, jobs: map<string, JobStatus>) {
    forall i :: 0 <= i < |t.runners| ==> t.runners[i].name in jobs && jobs[t.runners[i].name].complete
  }

  /** Every pod that exited 0 has its entry, so finished Jobs mean complete results. */
  lemma ExitedPodsReported(t: Template, w: World, r: string)
    requires GoodWorld(t, w)
    ensures Exited(w, r) <= PodsOf(w.entries, r).Keys
    ensures |Exited(w, r)| <= |PodsOf(w.entries, r)|
  {
    SubsetSize(Exited(w, r), PodsOf(w.entries, r).Keys);
  }

  lemma DoneJobsMeanComplete(t: Template, w: World)
    requires GoodWorld(t, w) && JobsDone(t, w.jobs)
    ensures Complete(t, w.entries)
  {
    forall i | 0 <= i < |t.runners|
      ensures RunnerComplete(t.runners[i], w.entries)
    {
      ExitedPodsReported(t, w, t.runners[i].name);
    }
  }

  // -------------------------------------------------- the truth of a verdict

  /** On this pod every check assigned to its runner held: known type, and the last
      observation met the expectation. */
  ghost predicate PodHolds(t: Template, w: World, r: string, p: string) {
    var mine := Filter(t.checks, r);
    && PodId(r, p) in w.evidence && |w.evidence[PodId(r, p)]| == |mine|
    && forall c :: 0 <= c < |mine| ==> Holds(mine[c], w.evidence[PodId(r, p)][c])
  }

  ghost predicate EverythingHolds(t: Template, w: World) {
    && Complete(t, w.entries)
    && forall r, p :: IsRunner(t, r) && p in PodsOf(w.entries, r) ==> PodHolds(t, w, r, p)
  }

  ghost predicate SomethingMissed(t: Template, w: World) {
    && Complete(t, w.entries)
    && exists r, p :: IsRunner(t, r) && p in PodsOf(w.entries, r) && !PodHolds(t, w, r, p)
  }

  /** A pod's entry passes all its runner's checks exactly when they all held. */
  lemma EntryTellsTruth(t: Template, w: World, r: string, p: string)
    requires ValidTemplate(t) && GoodWorld(t, w) && p in PodsOf(w.entries, r)
    ensures PodHolds(t, w, r, p) <==> forall name :: ChecksName(t, r, name) ==> PassedIn(PodsOf(w.entries, r)[p], name)
  {
    assert Backed(t, w, r, p);
    var body, mine, found := PodsOf(w.entries, r)[p], Filter(t.checks, r), w.evidence[PodId(r, p)];
    forall c | 0 <= c < |mine|
      ensures Executed(mine[c], found[c], body.checks[c])
      ensures ChecksName(t, r, mine[c].name)
      ensures PassedIn(body, mine[c].name) <==> Holds(mine[c], found[c])
    {
      assert mine[c].name == body.checks[c].name;
      Metrics.CoveredVerdict(t, r, body, c);
    }
    if !PodHolds(t, w, r, p) {
      var c :| 0 <= c < |mine| && !Holds(mine[c], found[c]);
      assert !PassedIn(body, mine[c].name);
    }
  }

  lemma SuccessTellsTruth(t: Template, w: World, r: string, p: string)
    requires ValidTemplate(t) && GoodWorld(t, w) && !SomeFails(t, w.entries)
    requires IsRunner(t, r) && p in PodsOf(w.entries, r)
    ensures PodHolds(t, w, r, p)
  {
    PairsUpToMembers(t, |t.runners|);
    EntryTellsTruth(t, w, r, p);
    forall name | ChecksName(t, r, name)
      ensures PassedIn(PodsOf(w.entries, r)[p], name)
    {
      assert Pair(r, name) in Pairs(t);
      assert PairPassed(w.entries, Pair(r, name));
    }
  }

  lemma FailureTellsTruth(t: Template, w: World) returns (r: string, p: string)
    requires ValidTemplate(t) && GoodWorld(t, w) && SomeFails(t, w.entries)
    ensures IsRunner(t, r) && p in PodsOf(w.entries, r) && !PodHolds(t, w, r, p)
  {
    PairsUpToMembers(t, |t.runners|);
    var pair :| pair in Pairs(t) && !PairPassed(w.entries, pair);
    r := pair.runner;
    p :| p in PodsOf(w.entries, r) && !PassedIn(PodsOf(w.entries, r)[p], pair.check);
    EntryTellsTruth(t, w, r, p);
  }

  lemma VerdictTellsTruth(t: Template, w: World)
    requires ValidTemplate(t) && GoodWorld(t, w) && Complete(t, w.entries)
    ensures Verdict(t, w.entries).phase == Succeeded <==> EverythingHolds(t, w)
    ensures Verdict(t, w.entries).phase == Failed <==> SomethingMissed(t, w)
  {
    FailedCountsFailures(t, w.entries);
    if SomeFails(t, w.entries) {
      var r, p := FailureTellsTruth(t, w);
      assert SomethingMissed(t, w) && !EverythingHolds(t, w);
    } else {
      forall r, p | IsRunner(t, r) && p in PodsOf(w.entries, r)
        ensures PodHolds(t, w, r, p)
      {
        SuccessTellsTruth(t, w, r, p);
      }
    }
  }

  // -------------------------------------------------------- history invariants

  ghost predicate Bounded(t: Template, s: Sys) {
    && |s.hist| > 0 && s.runAt < |s.hist| && s.jobsAt < |s.hist|
    && (s.pass.Active? ==> s.pass.at == s.runAt && s.pass.next <= |t.runners|)
  }

  ghost predicate AllGood(t: Template, hist: seq<World>) {
    forall i :: 0 <= i < |hist| ==> GoodWorld(t, hist[i])
  }

  ghost predicate Monotone(hist: seq<World>) {
    forall i, j :: 0 <= i <= j < |hist| ==> Grows(hist[i], hist[j])
  }

  /** A Job the pass saw complete or failed is so for every later reader. */
  ghost predicate SeesTruly(t: Template, s: Sys)
    requires Bounded(t, s)
  {
    s.pass.Active? ==>
      && (forall r :: r in s.pass.seen ==> IsRunner(t, r))
      && (forall i :: 0 <= i < s.pass.next ==> t.runners[i].name in s.pass.seen)
      && (forall r :: r in s.pass.seen && s.pass.seen[r].complete ==>
            r in s.hist[s.jobsAt].jobs && s.hist[s.jobsAt].jobs[r].complete)
      && (forall r :: r in s.pass.seen && s.pass.seen[r].failed ==>
            r in s.hist[s.jobsAt].jobs && s.hist[s.jobsAt].jobs[r].failed)
  }

  ghost predicate Base(t: Template, s: Sys) {
    Bounded(t, s) && AllGood(t, s.hist) && Monotone(s.hist) && SeesTruly(t, s)
  }

  /** The moment a step adds to the history, if any. */
  lemma StepHistory(t: Template, s: Sys, e: Event)
    requires ValidTemplate(t) && Base(t, s) && Enabled(t, s, e)
    ensures var s' := Next(t, s, e);
      if e.Environment? || e.MakeJob? || e.ApplyStatus? then
        && |s'.hist| == |s.hist| + 1 && s'.hist[..|s.hist|] == s.hist
        && GoodWorld(t, Now(s')) && Grows(Now(s), Now(s'))
        && (!e.ApplyStatus? ==> Now(s').ctl == Now(s).ctl)
      else s'.hist == s.hist
  {
    var w := Now(s);
    match e
    case Environment(we) =>
      WorldStep(t, w, we);
      WorldStepGrows(t, w, we);
    case MakeJob(at) =>
      var r := t.runners[s.pass.next].name;
      assert IsRunner(t, r);
      ControllerWriteKeeps(t, w, WithJob(w.jobs, r), w.ctl, r);
    case ApplyStatus =>
      var ctl := StatusFor(DecisionOf(t, s), s.hist[s.pass.at].ctl, s.pass.now);
      assert IsRunner(t, t.runners[0].name);
      ControllerWriteKeeps(t, w, w.jobs, ctl, t.runners[0].name);
    case _ =>
  }

  lemma GrowsTransitive(a: World, b: World, c: World)
    requires Grows(a, b) && Grows(b, c)
    ensures Grows(a, c)
  {
    forall r, p | p in PodsOf(a.entries, r)
      ensures p in PodsOf(c.entries, r) && PodsOf(c.entries, r)[p] == PodsOf(a.entries, r)[p]
    {
      assert p in PodsOf(b.entries, r);
    }
  }

  lemma MonotoneExtends(hist: seq<World>, w: World)
    requires |hist| > 0 && Monotone(hist) && Grows(hist[|hist| - 1], w)
    ensures Monotone(hist + [w])
  {
    var longer := hist + [w];
    forall i, j | 0 <= i <= j < |longer|
      ensures Grows(longer[i], longer[j])
    {
      if j == |hist| && i < |hist| {
        GrowsTransitive(hist[i], hist[|hist| - 1], w);
      }
    }
  }

  /** A step keeps the history and adds at most one good, grown moment. */
  ghost predicate HistoryStep(t: Template, hist: seq<World>, hist': seq<World>)
    requires |hist| > 0
  {
    || hist' == hist
    || (|hist'| == |hist| + 1 && hist' == hist + [hist'[|hist|]]
        && GoodWorld(t, hist'[|hist|]) && Grows(hist[|hist| - 1], hist'[|hist|]))
  }

  lemma HistoryKept(t: Template, hist: seq<World>, hist': seq<World>)
    requires |hist| > 0 && AllGood(t, hist) && Monotone(hist) && HistoryStep(t, hist, hist')
    ensures AllGood(t, hist') && Monotone(hist')
  {
    if hist' != hist {
      MonotoneExtends(hist, hist'[|hist|]);
    }
  }

  lemma BoundedStep(t: Template, s: Sys, e: Event)
    requires Bounded(t, s) && Enabled(t, s, e)
    ensures Bounded(t, Next(t, s, e))
  {
  }

  lemma SeeJobTruly(t: Template, s: Sys, s': Sys, at: nat, r: string, job: JobStatus)
    requires Base(t, s) && s.pass.Active? && s.pass.next < |t.runners| && s.jobsAt <= at < |s.hist|
    requires r == t.runners[s.pass.next].name
    requires job == FRESH_JOB || (r in s.hist[at].jobs && job == s.hist[at].jobs[r])
    requires s.hist <= s'.hist && s'.jobsAt == at && Bounded(t, s')
    requires s'.pass == s.pass.(next := s.pass.next + 1, seen := s.pass.seen[r := job])
    ensures SeesTruly(t, s')
  {
    assert IsRunner(t, r);
    assert Grows(s.hist[s.jobsAt], s.hist[at]);
    assert s'.hist[at] == s.hist[at];
  }

  lemma SeesTrulyStep(t: Template, s: Sys, e: Event)
    requires Base(t, s) && Enabled(t, s, e) && Bounded(t, Next(t, s, e)) && s.hist <= Next(t, s, e).hist
    ensures SeesTruly(t, Next(t, s, e))
  {
    var s' := Next(t, s, e);
    match e
    case SeeJob(at) =>
      var r := t.runners[s.pass.next].name;
      SeeJobTruly(t, s, s', at, r, s.hist[at].jobs[r]);
    case MakeJob(at) =>
      SeeJobTruly(t, s, s', at, t.runners[s.pass.next].name, FRESH_JOB);
    case _ =>
      assert s'.pass.Active? && s.pass.Active? ==> s'.hist[s.jobsAt] == s.hist[s.jobsAt];
  }

  lemma BaseStep(t: Template, s: Sys, e: Event)
    requires ValidTemplate(t) && Base(t, s) && Enabled(t, s, e)
    ensures Base(t, Next(t, s, e)) && HistoryStep(t, s.hist, Next(t, s, e).hist)
  {
    StepHistory(t, s, e);
    HistoryKept(t, s.hist, Next(t, s, e).hist);
    BoundedStep(t, s, e);
    SeesTrulyStep(t, s, e);
  }

  // ------------------------------------------------------------ the invariant

  predicate Decided(w: World) {
    w.ctl.phase == Succeeded || w.ctl.phase == Failed
  }

  ghost predicate EverDecided(hist: seq<World>) {
    exists n :: 0 <= n < |hist| && Decided(hist[n])
  }

  ghost predicate EverFailed(hist: seq<World>) {
    exists n :: 0 <= n < |hist| && hist[n].ctl.phase == Failed
  }

  /** Stored times are whole seconds, and a verdict came within the timeout. */
  ghost predicate OnTime(t: Template, w: World) {
    && (w.ctl.startTime.Some? ==> Stored(w.ctl.startTime.value) == w.ctl.startTime.value)
    && (Decided(w) ==> w.ctl.startTime.Some? && w.ctl.completionTime.Some?
                       && w.ctl.completionTime.value - w.ctl.startTime.value <= Timeout(t))
  }

  ghost predicate Sound(t: Template, hist: seq<World>) {
    forall n :: 0 <= n < |hist| ==> OnTime(t, hist[n])
  }

  /** Once a verdict has been stored, every later reader finds complete results and
      finished Jobs; once it was Failed, it also finds a failure. */
  ghost predicate Locked(t: Template, s: Sys)
    requires Bounded(t, s)
  {
    && (EverDecided(s.hist) ==>
          && Complete(t, s.hist[s.runAt].entries)
          && JobsDone(t, s.hist[s.jobsAt].jobs)
          && (s.pass.Active? ==> AllJobsComplete(s.pass.seen)))
    && (EverFailed(s.hist) ==> SomeFails(t, s.hist[s.runAt].entries))
  }

  /** Verdicts are never withdrawn, and Failed never turns into Succeeded. */
  ghost predicate Stable(hist: seq<World>) {
    forall n, m :: 0 <= n <= m < |hist| ==>
      && (Decided(hist[n]) ==> IsTerminal(hist[m].ctl.phase))
      && (hist[n].ctl.phase == Failed ==> hist[m].ctl.phase != Succeeded)
  }

  ghost predicate Inv(t: Template, s: Sys) {
    Base(t, s) && Sound(t, s.hist) && Locked(t, s) && Stable(s.hist)
  }

  lemma SameTimes(t: Template, a: World, b: World)
    requires a.ctl == b.ctl && OnTime(t, b)
    ensures OnTime(t, a)
  {
  }

  /** Moments whose controller fields are those of the moment before change nothing. */
  lemma SameStatusKeeps(t: Template, hist: seq<World>, w: World)
    requires |hist| > 0 && Sound(t, hist) && Stable(hist) && w.ctl == hist[|hist| - 1].ctl
    ensures Sound(t, hist + [w]) && Stable(hist + [w])
    ensures EverDecided(hist + [w]) <==> EverDecided(hist)
    ensures EverFailed(hist + [w]) <==> EverFailed(hist)
  {
    hide OnTime;
    var longer, last := hist + [w], |hist| - 1;
    assert forall n :: 0 <= n < |hist| ==> longer[n] == hist[n];
    forall n | 0 <= n < |longer|
      ensures OnTime(t, longer[n])
    {
      assert OnTime(t, hist[if n < |hist| then n else last]);
      SameTimes(t, longer[n], hist[if n < |hist| then n else last]);
    }
    forall n, m | 0 <= n <= m < |longer|
      ensures Decided(longer[n]) ==> IsTerminal(longer[m].ctl.phase)
      ensures longer[n].ctl.phase == Failed ==> longer[m].ctl.phase != Succeeded
    {
      var n', m' := if n < |hist| then n else last, if m < |hist| then m else last;
      assert longer[n].ctl == hist[n'].ctl && longer[m].ctl == hist[m'].ctl;
    }
  }

  /** What an apply stores. */
  lemma ApplyDecides(t: Template, s: Sys)
    requires ValidTemplate(t) && Inv(t, s) && Enabled(t, s, ApplyStatus)
    ensures var w := Now(Next(t, s, ApplyStatus));
      && OnTime(t, w)
      && (Decided(w) ==> Complete(t, s.hist[s.runAt].entries) && JobsDone(t, s.hist[s.jobsAt].jobs)
                         && w.ctl.phase == Verdict(t, s.hist[s.runAt].entries).phase
                         && w.ctl.summary == Some(SummaryOf(t, s.hist[s.runAt].entries)))
      && (EverDecided(s.hist) ==> IsTerminal(w.ctl.phase))
      && (EverFailed(s.hist) ==> w.ctl.phase != Succeeded)
  {
    hide GoodWorld, AllGood, Monotone, Complete, SomeFails, SummaryOf, Stable;
    var read := s.hist[s.pass.at];
    assert OnTime(t, read);
    VerdictWithinTimeout(t, read.ctl, read.entries, s.pass.seen, s.pass.now);
    FailedCountsFailures(t, read.entries);
  }

  lemma ApplyKeepsSound(t: Template, s: Sys)
    requires ValidTemplate(t) && Inv(t, s) && Enabled(t, s, ApplyStatus)
    ensures Sound(t, Next(t, s, ApplyStatus).hist)
  {
    hide GoodWorld, Monotone, Complete, SomeFails, SummaryOf, Stable, Locked, OnTime, SeesTruly, Decide, StatusFor, DecisionOf;
    ApplyDecides(t, s);
  }

  lemma ApplyKeepsLocked(t: Template, s: Sys)
    requires ValidTemplate(t) && Inv(t, s) && Enabled(t, s, ApplyStatus) && Bounded(t, Next(t, s, ApplyStatus))
    ensures Locked(t, Next(t, s, ApplyStatus)) && Stable(Next(t, s, ApplyStatus).hist)
  {
    hide GoodWorld, AllGood, Monotone, Complete, SomeFails, SummaryOf, OnTime, Sound, SeesTruly, Decide, StatusFor, DecisionOf, JobsDone;
    var s' := Next(t, s, ApplyStatus);
    ApplyDecides(t, s);
    FailedCountsFailures(t, s.hist[s.runAt].entries);
    assert s'.hist[s.runAt] == s.hist[s.runAt] && s'.hist[s.jobsAt] == s.hist[s.jobsAt];
    assert forall n :: 0 <= n < |s.hist| ==> s'.hist[n] == s.hist[n];
    if n :| 0 <= n < |s'.hist| && Decided(s'.hist[n]) && n < |s.hist| {
      assert EverDecided(s.hist);
    }
    if n :| 0 <= n < |s'.hist| && s'.hist[n].ctl.phase == Failed && n < |s.hist| {
      assert EverFailed(s.hist);
    }
  }

  /** Reads only move forward, so what was locked at the old position still is. */
  lemma ReadForward(t: Template, s: Sys, i: nat, j: nat)
    requires Base(t, s) && i <= j < |s.hist|
    ensures Complete(t, s.hist[i].entries) ==> Complete(t, s.hist[j].entries)
    ensures SomeFails(t, s.hist[i].entries) ==> SomeFails(t, s.hist[j].entries)
    ensures JobsDone(t, s.hist[i].jobs) ==> JobsDone(t, s.hist[j].jobs)
  {
    assert Grows(s.hist[i], s.hist[j]);
    VerdictMonotone(t, s.hist[i].entries, s.hist[j].entries);
  }

  lemma ReadKeepsLocked(t: Template, s: Sys, e: Event)
    requires ValidTemplate(t) && Inv(t, s) && Enabled(t, s, e) && Bounded(t, Next(t, s, e))
    requires e.Begin? || e.CheckAccount? || e.SeeJob? || e.Abandon?
    ensures Locked(t, Next(t, s, e))
  {
    hide GoodWorld, AllGood, Monotone, Complete, SomeFails, SummaryOf, OnTime, Sound, Decide, StatusFor, Stable, WorldEnabled, WorldNext;
    match e
    case Begin(at) => ReadForward(t, s, s.runAt, at);
    case SeeJob(at) => ReadForward(t, s, s.jobsAt, at);
    case _ =>
  }

  /** After a verdict every Job exists for every later reader, so none is created again. */
  lemma NoJobAfterVerdict(t: Template, s: Sys, at: nat)
    requires ValidTemplate(t) && Inv(t, s) && Enabled(t, s, MakeJob(at))
    ensures !EverDecided(s.hist)
  {
    ReadForward(t, s, s.jobsAt, at);
  }

  lemma WriteKeepsLocked(t: Template, s: Sys, e: Event)
    requires ValidTemplate(t) && Inv(t, s) && Enabled(t, s, e) && Bounded(t, Next(t, s, e))
    requires e.Environment? || e.MakeJob?
    requires EverDecided(Next(t, s, e).hist) <==> EverDecided(s.hist)
    requires EverFailed(Next(t, s, e).hist) <==> EverFailed(s.hist)
    ensures Locked(t, Next(t, s, e))
  {
    var s' := Next(t, s, e);
    assert s'.hist[s.runAt] == s.hist[s.runAt] && s'.hist[s.jobsAt] == s.hist[s.jobsAt];
    if e.MakeJob? {
      NoJobAfterVerdict(t, s, e.at);
      assert EverFailed(s.hist) ==> EverDecided(s.hist);
    }
  }

  lemma InvStep(t: Template, s: Sys, e: Event)
    requires ValidTemplate(t) && Inv(t, s) && Enabled(t, s, e)
    ensures Inv(t, Next(t, s, e))
  {
    hide GoodWorld, AllGood, Monotone, Grows, Complete, SomeFails, OnTime, Decide, StatusFor, JobsDone, WorldEnabled, WorldNext, SeesTruly, Locked, Stable, Sound, EverDecided, EverFailed;
    BaseStep(t, s, e);
    StepHistory(t, s, e);
    var s' := Next(t, s, e);
    if e.ApplyStatus? {
      ApplyKeepsSound(t, s);
      ApplyKeepsLocked(t, s);
    } else if e.Environment? || e.MakeJob? {
      assert s'.hist == s.hist + [Now(s')];
      SameStatusKeeps(t, s.hist, Now(s'));
      WriteKeepsLocked(t, s, e);
    } else {
      ReadKeepsLocked(t, s, e);
    }
  }

  lemma InvInitial(t: Template, s: Sys)
    requires ValidTemplate(t) && Initial(s)
    ensures Inv(t, s)
  {
    hide GoodWorld, Complete, SomeFails, EverythingHolds, SomethingMissed, JobsDone, ValidTemplate;
    FirstWorldIsGood(t, s.hist[0]);
    assert !Decided(s.hist[0]);
  }

  lemma FirstWorldIsGood(t: Template, w: World)
    requires w.entries == map[] && w.jobs == map[] && w.pods == map[]
    ensures GoodWorld(t, w)
  {
  }

  lemma {:induction false} Invariant(t: Template, tr: seq<Sys>, i: nat)
    requires ValidTemplate(t) && Behavior(t, tr) && i < |tr|
    ensures Inv(t, tr[i])
  {
    hide Inv, Enabled, Next, Initial, ValidTemplate;
    if i == 0 {
      InvInitial(t, tr[0]);
    } else {
      Invariant(t, tr, i - 1);
      assert Step(t, tr[i - 1], tr[i]);
      var e :| Enabled(t, tr[i - 1], e) && tr[i] == Next(t, tr[i - 1], e);
      InvStep(t, tr[i - 1], e);
    }
  }
}
