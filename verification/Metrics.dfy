/** The operator's per-suite metrics: gauges hold the latest verdicts, counters grow. */
module Metrics {
  import opened Types
  import opened RunnerPod
  import opened Aggregation

  datatype SuiteKey = SuiteKey(namespace: string, suite: string)
  datatype CheckSeries = CheckSeries(key: SuiteKey, check: string)
  datatype ResultSeries = ResultSeries(key: SuiteKey, check: string, passed: bool)
  datatype PhaseSeries = PhaseSeries(key: SuiteKey, phase: RunPhase)

  type Gauges = map<CheckSeries, bool>

  function Without(g: Gauges, key: SuiteKey): Gauges {
    map s | s in g && s.key != key :: g[s]
  }

  /** The gauges after `key`'s series have been replaced by `results`. */
  ghost predicate Replaced(before: Gauges, after: Gauges, key: SuiteKey, results: map<string, bool>) {
    && (forall s :: s in after <==> if s.key == key then s.check in results else s in before)
    && (forall s :: s in after ==> after[s] == if s.key == key then results[s.check] else before[s])
  }

  function Get<S(==)>(m: map<S, nat>, s: S): nat {
    if s in m then m[s] else 0
  }

  // ------------------------------------------------------ folding the results

  function AllOfPods(pods: seq<PodEntry>): seq<CheckResult> {
    if |pods| == 0 then [] else AllOfPods(pods[..|pods| - 1]) + pods[|pods| - 1].result.checks
  }

  /** Every reported result, in list order. */
  function AllResults(list: seq<RunnerStatus>): seq<CheckResult> {
    if |list| == 0 then [] else AllResults(list[..|list| - 1]) + AllOfPods(list[|list| - 1].pods)
  }

  function Count(results: seq<CheckResult>, name: string, passed: bool): nat {
    if |results| == 0 then 0
    else
      var r := results[|results| - 1];
      Count(results[..|results| - 1], name, passed) + if r.name == name && r.passed == passed then 1 else 0
  }

  function Observations<S(==)>(m: map<S, seq<int>>, s: S): seq<int> {
    if s in m then m[s] else []
  }

  /** The reported durations of matching results, in order. */
  function Durations(results: seq<CheckResult>, name: string, passed: bool): seq<int> {
    if |results| == 0 then []
    else
      var r := results[|results| - 1];
      Durations(results[..|results| - 1], name, passed)
      + if r.name == name && r.passed == passed && r.duration.Some? then [r.duration.value] else []
  }

  ghost function Matching(results: seq<CheckResult>, name: string, passed: bool): set<int> {
    set i | 0 <= i < |results| && results[i].name == name && results[i].passed == passed
  }

  /** How many results there are of that name and outcome. */
  lemma {:induction false} CountIsSize(results: seq<CheckResult>, name: string, passed: bool)
    ensures Count(results, name, passed) == |Matching(results, name, passed)|
  {
    if |results| > 0 {
      var n := |results| - 1;
      CountIsSize(results[..n], name, passed);
      OneMoreMatching(results, name, passed);
    }
  }

  lemma OneMoreMatching(results: seq<CheckResult>, name: string, passed: bool)
    requires |results| > 0
    ensures var n := |results| - 1; var before := Matching(results[..n], name, passed);
      && n !in before
      && Matching(results, name, passed) == before + if results[n].name == name && results[n].passed == passed then {n} else {}
  {
  }

  /** Their durations, in order and without those that carry none: the results they belong
      to sit at these positions. */
  lemma {:induction false} DurationsAreReported(results: seq<CheckResult>, name: string, passed: bool) returns (at: seq<int>)
    ensures |at| == |Durations(results, name, passed)| && forall k, l :: 0 <= k < l < |at| ==> at[k] < at[l]
    ensures forall i :: i in at <==>
      0 <= i < |results| && results[i].name == name && results[i].passed == passed && results[i].duration.Some?
    ensures forall k :: 0 <= k < |at| ==>
      0 <= at[k] < |results| && results[at[k]].duration == Some(Durations(results, name, passed)[k])
  {
    at := [];
    if |results| > 0 {
      var n := |results| - 1;
      var front := DurationsAreReported(results[..n], name, passed);
      assert forall k :: 0 <= k < |front| ==> front[k] in front;
      at := if results[n].name == name && results[n].passed == passed && results[n].duration.Some? then front + [n] else front;
    }
  }

  /** The result counters and the latency histograms, as the values observed so far. */
  datatype Tallies = Tallies(total: map<ResultSeries, nat>, latencies: map<ResultSeries, seq<int>>)

  /** Each of the key's counters grew by the number of matching results, each of its
      histograms by their durations; no other moved. */
  ghost predicate Grew(a: Tallies, b: Tallies, key: SuiteKey, results: seq<CheckResult>) {
    forall s :: GrewAt(a, b, key, results, s)
  }

  ghost predicate GrewAt(a: Tallies, b: Tallies, key: SuiteKey, results: seq<CheckResult>, s: ResultSeries) {
    && Get(b.total, s) == Get(a.total, s) + (if s.key == key then Count(results, s.check, s.passed) else 0)
    && Observations(b.latencies, s)
       == Observations(a.latencies, s) + (if s.key == key then Durations(results, s.check, s.passed) else [])
  }

  lemma {:induction false} DurationsAppend(a: seq<CheckResult>, b: seq<CheckResult>, name: string, passed: bool)
    ensures Durations(a + b, name, passed) == Durations(a, name, passed) + Durations(b, name, passed)
  {
    if |b| == 0 {
      assert a + b == a;
    } else {
      assert (a + b)[..|a + b| - 1] == a + b[..|b| - 1];
      DurationsAppend(a, b[..|b| - 1], name, passed);
    }
  }

  lemma GrewThen(a: Tallies, b: Tallies, c: Tallies, key: SuiteKey, x: seq<CheckResult>, y: seq<CheckResult>)
    requires Grew(a, b, key, x) && Grew(b, c, key, y)
    ensures Grew(a, c, key, x + y)
  {
    hide Count, Durations;
    forall s
      ensures GrewAt(a, c, key, x + y, s)
    {
      assert GrewAt(a, b, key, x, s) && GrewAt(b, c, key, y, s);
      CountAppend(x, y, s.check, s.passed);
      DurationsAppend(x, y, s.check, s.passed);
    }
  }

  lemma NothingGrew(a: Tallies, key: SuiteKey)
    ensures Grew(a, a, key, [])
  {
  }

  lemma {:induction false} CountAppend(a: seq<CheckResult>, b: seq<CheckResult>, name: string, passed: bool)
    ensures Count(a + b, name, passed) == Count(a, name, passed) + Count(b, name, passed)
  {
    if |b| == 0 {
      assert a + b == a;
    } else {
      assert (a + b)[..|a + b| - 1] == a + b[..|b| - 1];
      CountAppend(a, b[..|b| - 1], name, passed);
    }
  }

  /** A check's verdict: reported at all, and passed wherever it was reported. */
  ghost predicate IsVerdicts(m: map<string, bool>, results: seq<CheckResult>) {
    && (forall name :: name in m <==> exists i :: 0 <= i < |results| && results[i].name == name)
    && (forall name :: name in m ==> (m[name] <==> forall i :: 0 <= i < |results| && results[i].name == name ==> results[i].passed))
  }

  lemma OneMoreVerdict(m: map<string, bool>, results: seq<CheckResult>, r: CheckResult)
    requires IsVerdicts(m, results)
    ensures IsVerdicts(m[r.name := r.passed && (r.name !in m || m[r.name])], results + [r])
  {
    var m', all := m[r.name := r.passed && (r.name !in m || m[r.name])], results + [r];
    assert forall i :: 0 <= i < |results| ==> all[i] == results[i];
    assert all[|results|] == r;
    forall name
      ensures name in m' <==> exists i :: 0 <= i < |all| && all[i].name == name
    {
      if name in m {
        var i :| 0 <= i < |results| && results[i].name == name;
        assert all[i].name == name;
      }
    }
    forall name | name in m'
      ensures m'[name] <==> forall i :: 0 <= i < |all| && all[i].name == name ==> all[i].passed
    {
      if name !in m {
        assert forall i :: 0 <= i < |results| ==> results[i].name != name;
      } else if !m[name] {
        var i :| 0 <= i < |results| && results[i].name == name && !results[i].passed;
        assert all[i].name == name && !all[i].passed;
      }
    }
  }

  lemma ReplacedTwice(a: Gauges, b: Gauges, c: Gauges, key: SuiteKey, x: map<string, bool>, y: map<string, bool>)
    requires Replaced(a, b, key, x) && Replaced(b, c, key, y)
    ensures Replaced(a, c, key, y)
  {
  }

  /** Everything the operator exports, at one moment. */
  datatype Snapshot = Snapshot(
    lastResult: Gauges,
    lastCompletion: map<SuiteKey, int>,
    runsTotal: map<PhaseSeries, nat>,
    runDurations: map<SuiteKey, seq<int>>,
    tallies: Tallies)

  ghost predicate PhaseCounted(a: map<PhaseSeries, nat>, b: map<PhaseSeries, nat>, p: PhaseSeries) {
    forall s :: Get(b, s) == Get(a, s) + if s == p then 1 else 0
  }

  ghost predicate DurationObserved(a: map<SuiteKey, seq<int>>, b: map<SuiteKey, seq<int>>, key: SuiteKey, duration: int) {
    forall k :: Observations(b, k) == Observations(a, k) + if k == key then [duration] else []
  }

  lemma OneGrew(a: Tallies, b: Tallies, key: SuiteKey, r: CheckResult)
    requires var s := ResultSeries(key, r.name, r.passed);
      && b.total == a.total[s := Get(a.total, s) + 1]
      && b.latencies == if r.duration.Some? then a.latencies[s := Observations(a.latencies, s) + [r.duration.value]] else a.latencies
    ensures Grew(a, b, key, [r])
  {
    forall s
      ensures GrewAt(a, b, key, [r], s)
    {
      assert [r][..0] == [];
    }
  }

  /** What recording a finished run does: its phase is counted and its duration observed;
      for a verdict its results are tallied and its suite's gauges replaced, or dropped if
      the suite is gone. */
  ghost predicate Recorded(a: Snapshot, b: Snapshot, key: SuiteKey, list: seq<RunnerStatus>, phase: RunPhase,
                           duration: int, completedAt: int, suiteGone: bool) {
    && PhaseCounted(a.runsTotal, b.runsTotal, PhaseSeries(key, phase))
    && DurationObserved(a.runDurations, b.runDurations, key, duration)
    && if phase != Succeeded && phase != Failed then
         b.lastResult == a.lastResult && b.lastCompletion == a.lastCompletion && b.tallies == a.tallies
       else
         && Grew(a.tallies, b.tallies, key, AllResults(list))
         && if suiteGone then
              Replaced(a.lastResult, b.lastResult, key, map[]) && b.lastCompletion == a.lastCompletion - {key}
            else
              && (exists v :: IsVerdicts(v, AllResults(list)) && Replaced(a.lastResult, b.lastResult, key, v))
              && b.lastCompletion == a.lastCompletion[key := completedAt]
  }

  class Registry {
    var lastResult: Gauges
    var lastCompletion: map<SuiteKey, int>
    var runsTotal: map<PhaseSeries, nat>
    var runDurations: map<SuiteKey, seq<int>>
    var resultTotal: map<ResultSeries, nat>
    var latencies: map<ResultSeries, seq<int>>

    function Counted(): Tallies
      reads this
    {
      Tallies(resultTotal, latencies)
    }

    function Exported(): Snapshot
      reads this
    {
      Snapshot(lastResult, lastCompletion, runsTotal, runDurations, Counted())
    }

    constructor ()
      ensures Exported() == Snapshot(map[], map[], map[], map[], Tallies(map[], map[]))
    {
      lastResult, lastCompletion, runsTotal, runDurations := map[], map[], map[], map[];
      resultTotal, latencies := map[], map[];
    }

    /** Clearing first drops series of checks the suite no longer has. */
    method SetLastResults(key: SuiteKey, results: map<string, bool>)
      modifies this`lastResult
      ensures Replaced(old(lastResult), lastResult, key, results)
    {
      lastResult := Without(lastResult, key);
      var todo := results.Keys;
      while todo != {}
        invariant todo <= results.Keys
        invariant Replaced(old(lastResult), lastResult, key, map c | c in results && c !in todo :: results[c])
        decreases todo
      {
        var c :| c in todo;
        lastResult := lastResult[CheckSeries(key, c) := results[c]];
        todo := todo - {c};
      }
      assert (map c | c in results && c !in {} :: results[c]) == results;
    }

    method DeleteSuite(key: SuiteKey)
      modifies this`lastResult, this`lastCompletion
      ensures Replaced(old(lastResult), lastResult, key, map[])
      ensures lastCompletion == old(lastCompletion) - {key}
    {
      lastResult := Without(lastResult, key);
      lastCompletion := lastCompletion - {key};
    }

    method CountResult(key: SuiteKey, r: CheckResult)
      modifies this`resultTotal, this`latencies
      ensures Grew(old(Counted()), Counted(), key, [r])
    {
      var s := ResultSeries(key, r.name, r.passed);
      resultTotal := resultTotal[s := Get(resultTotal, s) + 1];
      if r.duration.Some? {
        latencies := latencies[s := Observations(latencies, s) + [r.duration.value]];
      }
      OneGrew(old(Counted()), Counted(), key, r);
    }

    /** One pod's results, folded into the verdicts so far. */
    method RecordPod(key: SuiteKey, checks: seq<CheckResult>, verdicts: map<string, bool>, ghost done: seq<CheckResult>)
      returns (after: map<string, bool>)
      requires IsVerdicts(verdicts, done)
      modifies this`resultTotal, this`latencies
      ensures IsVerdicts(after, done + checks)
      ensures Grew(old(Counted()), Counted(), key, checks)
    {
      hide Grew, IsVerdicts;
      after := verdicts;
      assert done + checks[..0] == done;
      NothingGrew(Counted(), key);
      for i := 0 to |checks|
        invariant IsVerdicts(after, done + checks[..i])
        invariant Grew(old(Counted()), Counted(), key, checks[..i])
      {
        var r := checks[i];
        ghost var before := Counted();
        CountResult(key, r);
        GrewThen(old(Counted()), before, Counted(), key, checks[..i], [r]);
        OneMoreVerdict(after, done + checks[..i], r);
        assert checks[..i] + [r] == checks[..i + 1];
        assert done + checks[..i] + [r] == done + checks[..i + 1];
        after := after[r.name := r.passed && (r.name !in after || after[r.name])];
      }
      assert checks[..|checks|] == checks;
    }

    method RecordPods(key: SuiteKey, pods: seq<PodEntry>, verdicts: map<string, bool>, ghost done: seq<CheckResult>)
      returns (after: map<string, bool>)
      requires IsVerdicts(verdicts, done)
      modifies this`resultTotal, this`latencies
      ensures IsVerdicts(after, done + AllOfPods(pods))
      ensures Grew(old(Counted()), Counted(), key, AllOfPods(pods))
    {
      hide Grew, IsVerdicts;
      after := verdicts;
      assert done + AllOfPods(pods[..0]) == done;
      NothingGrew(Counted(), key);
      for i := 0 to |pods|
        invariant IsVerdicts(after, done + AllOfPods(pods[..i]))
        invariant Grew(old(Counted()), Counted(), key, AllOfPods(pods[..i]))
      {
        ghost var before, here, tallied := AllOfPods(pods[..i]), pods[i].result.checks, Counted();
        assert pods[..i + 1][..i] == pods[..i];
        assert done + before + here == done + (before + here);
        after := RecordPod(key, pods[i].result.checks, after, done + before);
        GrewThen(old(Counted()), tallied, Counted(), key, before, here);
      }
      assert pods[..|pods|] == pods;
    }

    method RecordResults(key: SuiteKey, list: seq<RunnerStatus>) returns (verdicts: map<string, bool>)
      modifies this`resultTotal, this`latencies
      ensures IsVerdicts(verdicts, AllResults(list))
      ensures Grew(old(Counted()), Counted(), key, AllResults(list))
    {
      verdicts := map[];
      NothingGrew(Counted(), key);
      for i := 0 to |list|
        invariant IsVerdicts(verdicts, AllResults(list[..i]))
        invariant Grew(old(Counted()), Counted(), key, AllResults(list[..i]))
      {
        ghost var before, here, tallied := AllResults(list[..i]), AllOfPods(list[i].pods), Counted();
        assert list[..i + 1][..i] == list[..i];
        verdicts := RecordPods(key, list[i].pods, verdicts, before);
        GrewThen(old(Counted()), tallied, Counted(), key, before, here);
      }
      assert list[..|list|] == list;
    }

    method CountRun(p: PhaseSeries, duration: int)
      modifies this`runsTotal, this`runDurations
      ensures PhaseCounted(old(runsTotal), runsTotal, p)
      ensures DurationObserved(old(runDurations), runDurations, p.key, duration)
    {
      runsTotal := runsTotal[p := Get(runsTotal, p) + 1];
      runDurations := runDurations[p.key := Observations(runDurations, p.key) + [duration]];
    }

    /** A finished run's metrics. `suiteVisible` is the existence check made after the
        gauges have been written; ad-hoc runs skip it and use an empty suite label. */
    method RecordMetrics(namespace: string, suiteRef: Option<string>, list: seq<RunnerStatus>, phase: RunPhase,
                         duration: int, completedAt: int, suiteVisible: bool)
      modifies this
      ensures Recorded(old(Exported()), Exported(), SuiteKey(namespace, if suiteRef.Some? then suiteRef.value else ""), list,
                       phase, duration, completedAt, suiteRef.Some? && !suiteVisible)
    {
      hide Grew, IsVerdicts, PhaseCounted, DurationObserved, Replaced;
      var suite := if suiteRef.Some? then suiteRef.value else "";
      var key := SuiteKey(namespace, suite);
      CountRun(PhaseSeries(key, phase), duration);
      if phase != Succeeded && phase != Failed {
        return;
      }
      var verdicts := RecordResults(key, list);
      SetLastResults(key, verdicts);
      lastCompletion := lastCompletion[key := completedAt];
      if suiteRef.None? {
        return;
      }
      if !suiteVisible {
        ghost var written := lastResult;
        DeleteSuite(key);
        ReplacedTwice(old(lastResult), written, lastResult, key, verdicts, map[]);
        assert old(lastCompletion)[key := completedAt] - {key} == old(lastCompletion) - {key};
      }
    }
  }

  // ------------------------------------------- metrics and verdicts agree

  /** A pod reported one result per assigned check, in order. */
  ghost predicate Covers(checks: seq<CheckSpec>, runner: string, body: PodResult) {
    var mine := Filter(checks, runner);
    && |body.checks| == |mine|
    && forall k :: 0 <= k < |mine| ==> body.checks[k].name == mine[k].name
  }

  /** Only the suite's own runners reported, and each pod covers its runner's checks. */
  ghost predicate GenuineList(t: Template, list: seq<RunnerStatus>) {
    && UniqueKeys(list)
    && (forall i :: 0 <= i < |list| ==> IsRunner(t, list[i].name))
    && (forall i, j :: 0 <= i < |list| && 0 <= j < |list[i].pods| ==>
          Covers(t.checks, list[i].name, list[i].pods[j].result))
  }

  lemma {:induction false} ResultOfPod(pods: seq<PodEntry>, k: nat) returns (i: nat, j: nat)
    requires k < |AllOfPods(pods)|
    ensures i < |pods| && j < |pods[i].result.checks| && AllOfPods(pods)[k] == pods[i].result.checks[j]
  {
    var init := pods[..|pods| - 1];
    if k < |AllOfPods(init)| {
      i, j := ResultOfPod(init, k);
    } else {
      i, j := |pods| - 1, k - |AllOfPods(init)|;
    }
  }

  lemma {:induction false} PodOfResult(pods: seq<PodEntry>, i: nat, j: nat) returns (k: nat)
    requires i < |pods| && j < |pods[i].result.checks|
    ensures k < |AllOfPods(pods)| && AllOfPods(pods)[k] == pods[i].result.checks[j]
  {
    var init := pods[..|pods| - 1];
    if i < |init| {
      k := PodOfResult(init, i, j);
    } else {
      k := |AllOfPods(init)| + j;
    }
  }

  lemma {:induction false} ResultOfRunner(list: seq<RunnerStatus>, k: nat) returns (r: nat, i: nat, j: nat)
    requires k < |AllResults(list)|
    ensures r < |list| && i < |list[r].pods| && j < |list[r].pods[i].result.checks|
    ensures AllResults(list)[k] == list[r].pods[i].result.checks[j]
  {
    var init := list[..|list| - 1];
    if k < |AllResults(init)| {
      r, i, j := ResultOfRunner(init, k);
    } else {
      r := |list| - 1;
      i, j := ResultOfPod(list[r].pods, k - |AllResults(init)|);
    }
  }

  lemma {:induction false} RunnerOfResult(list: seq<RunnerStatus>, r: nat, i: nat, j: nat) returns (k: nat)
    requires r < |list| && i < |list[r].pods| && j < |list[r].pods[i].result.checks|
    ensures k < |AllResults(list)| && AllResults(list)[k] == list[r].pods[i].result.checks[j]
  {
    var init := list[..|list| - 1];
    if r < |init| {
      k := RunnerOfResult(init, r, i, j);
    } else {
      var l := PodOfResult(list[r].pods, i, j);
      k := |AllResults(init)| + l;
    }
  }

  lemma {:induction false} EntriesAt(list: seq<RunnerStatus>, r: nat)
    requires UniqueKeys(list) && r < |list|
    ensures PodsOf(EntriesOf(list), list[r].name) == PodMap(list[r].pods)
  {
    if r < |list| - 1 {
      EntriesAt(list[..|list| - 1], r);
    }
  }

  lemma {:induction false} EntriesKey(list: seq<RunnerStatus>, name: string) returns (r: nat)
    requires name in EntriesOf(list)
    ensures r < |list| && list[r].name == name
  {
    if list[|list| - 1].name == name {
      r := |list| - 1;
    } else {
      r := EntriesKey(list[..|list| - 1], name);
    }
  }

  lemma {:induction false} FirstResultAt(results: seq<CheckResult>, k: nat)
    requires k < |results|
    requires forall i, j :: 0 <= i < j < |results| ==> results[i].name != results[j].name
    ensures FirstResult(results, results[k].name) == Some(results[k])
  {
    if k > 0 {
      FirstResultAt(results[1..], k - 1);
    }
  }

  /** In a covering entry, a check passed exactly when its own result says so. */
  lemma CoveredVerdict(t: Template, runner: string, body: PodResult, k: nat)
    requires ValidTemplate(t) && Covers(t.checks, runner, body) && k < |body.checks|
    ensures PassedIn(body, body.checks[k].name) <==> body.checks[k].passed
  {
    FilterKeepsNamesUnique(t.checks, runner);
    FirstResultAt(body.checks, k);
  }

  /** A gauge says 1 exactly when the check passed for every runner it is assigned to. */
  ghost predicate PassedEverywhere(t: Template, list: seq<RunnerStatus>, name: string) {
    forall p :: p in Pairs(t) && p.check == name ==> PairPassed(EntriesOf(list), p)
  }

  lemma VerdictPasses(t: Template, list: seq<RunnerStatus>, m: map<string, bool>, name: string)
    requires ValidTemplate(t) && GenuineList(t, list) && IsVerdicts(m, AllResults(list)) && name in m
    ensures m[name] ==> PassedEverywhere(t, list, name)
  {
    if m[name] {
      PairsUpToMembers(t, |t.runners|);
      forall p, q | p in Pairs(t) && p.check == name && q in PodsOf(EntriesOf(list), p.runner)
        ensures PassedIn(PodsOf(EntriesOf(list), p.runner)[q], name)
      {
        var r := EntriesKey(list, p.runner);
        EntriesAt(list, r);
        var i := PodMapKey(list[r].pods, q);
        PodMapAt(list[r].pods, i);
        var body := list[r].pods[i].result;
        var mine := Filter(t.checks, p.runner);
        var j :| 0 <= j < |mine| && mine[j].name == name;
        var k := RunnerOfResult(list, r, i, j);
        CoveredVerdict(t, p.runner, body, j);
      }
    }
  }

  lemma VerdictFails(t: Template, list: seq<RunnerStatus>, m: map<string, bool>, name: string)
    requires ValidTemplate(t) && GenuineList(t, list) && IsVerdicts(m, AllResults(list)) && name in m
    ensures !m[name] ==> !PassedEverywhere(t, list, name)
  {
    if !m[name] {
      var all := AllResults(list);
      var k :| 0 <= k < |all| && all[k].name == name && !all[k].passed;
      var r, i, j := ResultOfRunner(list, k);
      var runner, body := list[r].name, list[r].pods[i].result;
      EntriesAt(list, r);
      PodMapAt(list[r].pods, i);
      CoveredVerdict(t, runner, body, j);
      PairsUpToMembers(t, |t.runners|);
      var mine := Filter(t.checks, runner);
      assert mine[j].name == name;
      assert ChecksName(t, runner, name);
      var p := Pair(runner, name);
      assert p in Pairs(t) && !PairPassed(EntriesOf(list), p);
    }
  }

  /** Every check of the suite is assigned to some runner. */
  lemma EveryCheckAssigned(t: Template, c: CheckSpec) returns (n: nat)
    requires ValidTemplate(t) && c in t.checks
    ensures n < |t.runners| && c in Filter(t.checks, t.runners[n].name)
  {
    if |c.runners| == 0 {
      n := 0;
    } else {
      assert IsRunner(t, c.runners[0]);
      n :| 0 <= n < |t.runners| && t.runners[n].name == c.runners[0];
    }
    FilterKeepsNamesUnique(t.checks, t.runners[n].name);
  }

  /** The gauges of a completed run carry exactly the suite's checks. */
  lemma VerdictKeys(t: Template, list: seq<RunnerStatus>, m: map<string, bool>, name: string)
    requires ValidTemplate(t) && GenuineList(t, list) && Complete(t, EntriesOf(list)) && IsVerdicts(m, AllResults(list))
    ensures name in m <==> exists c :: c in t.checks && c.name == name
  {
    if name in m {
      var k :| 0 <= k < |AllResults(list)| && AllResults(list)[k].name == name;
      var r, i, j := ResultOfRunner(list, k);
      var mine := Filter(t.checks, list[r].name);
      FilterKeepsNamesUnique(t.checks, list[r].name);
      assert mine[j] in t.checks && mine[j].name == name;
    }
    if c :| c in t.checks && c.name == name {
      var n := EveryCheckAssigned(t, c);
      var runner := t.runners[n].name;
      assert RunnerComplete(t.runners[n], EntriesOf(list));
      var r := EntriesKey(list, runner);
      EntriesAt(list, r);
      PodMapSize(list[r].pods);
      var mine := Filter(t.checks, runner);
      var j :| 0 <= j < |mine| && mine[j] == c;
      assert Covers(t.checks, runner, list[r].pods[0].result);
      var k := RunnerOfResult(list, r, 0, j);
    }
  }

  /** Gauges and verdict agree: one gauge per check of the suite, 1 exactly when every
      pair of that check passed. */
  lemma GaugesAgreeWithVerdict(t: Template, list: seq<RunnerStatus>, m: map<string, bool>)
    requires ValidTemplate(t) && GenuineList(t, list) && Complete(t, EntriesOf(list)) && IsVerdicts(m, AllResults(list))
    ensures forall name :: name in m <==> exists c :: c in t.checks && c.name == name
    ensures forall name :: name in m ==> (m[name] <==> PassedEverywhere(t, list, name))
  {
    forall name
      ensures name in m <==> exists c :: c in t.checks && c.name == name
      ensures name in m ==> (m[name] <==> PassedEverywhere(t, list, name))
    {
      VerdictKeys(t, list, m, name);
      if name in m {
        VerdictPasses(t, list, m, name);
        VerdictFails(t, list, m, name);
      }
    }
  }

  /** The run succeeded exactly when all its gauges are 1. */
  lemma SucceededMeansAllGauges(t: Template, list: seq<RunnerStatus>, m: map<string, bool>)
    requires ValidTemplate(t) && GenuineList(t, list) && Complete(t, EntriesOf(list)) && IsVerdicts(m, AllResults(list))
    ensures SummaryOf(t, EntriesOf(list)).failed == 0 <==> forall name :: name in m ==> m[name]
  {
    FailedCountsFailures(t, EntriesOf(list));
    if SomeFails(t, EntriesOf(list)) {
      var p :| p in Pairs(t) && !PairPassed(EntriesOf(list), p);
      PairsUpToMembers(t, |t.runners|);
      FilterKeepsNamesUnique(t.checks, p.runner);
      var mine := Filter(t.checks, p.runner);
      var k :| 0 <= k < |mine| && mine[k].name == p.check;
      assert mine[k] in t.checks;
      VerdictKeys(t, list, m, p.check);
      VerdictPasses(t, list, m, p.check);
    } else {
      forall name | name in m
        ensures m[name]
      {
        VerdictFails(t, list, m, name);
      }
    }
  }

  /** Pods that ran a given check, over all reporting runners. */
  ghost function PodsRunning(t: Template, list: seq<RunnerStatus>, name: string): nat {
    if |list| == 0 then 0
    else
      var r := list[|list| - 1];
      PodsRunning(t, list[..|list| - 1], name) + if ChecksName(t, r.name, name) then |r.pods| else 0
  }

  lemma {:induction false} CountAbsent(results: seq<CheckResult>, name: string)
    requires forall i :: 0 <= i < |results| ==> results[i].name != name
    ensures Count(results, name, true) + Count(results, name, false) == 0
  {
    if |results| > 0 { CountAbsent(results[..|results| - 1], name); }
  }

  lemma {:induction false} CountOnce(results: seq<CheckResult>, k: nat)
    requires k < |results|
    requires forall i, j :: 0 <= i < j < |results| ==> results[i].name != results[j].name
    ensures Count(results, results[k].name, true) + Count(results, results[k].name, false) == 1
  {
    var init := results[..|results| - 1];
    if k < |init| {
      CountOnce(init, k);
    } else {
      CountAbsent(init, results[k].name);
    }
  }

  lemma CountInPod(t: Template, runner: string, body: PodResult, name: string)
    requires ValidTemplate(t) && Covers(t.checks, runner, body)
    ensures Count(body.checks, name, true) + Count(body.checks, name, false) == if ChecksName(t, runner, name) then 1 else 0
  {
    FilterKeepsNamesUnique(t.checks, runner);
    var mine := Filter(t.checks, runner);
    if ChecksName(t, runner, name) {
      var k :| 0 <= k < |mine| && mine[k].name == name;
      CountOnce(body.checks, k);
    } else {
      CountAbsent(body.checks, name);
    }
  }

  lemma {:induction false} CountInPods(t: Template, runner: string, pods: seq<PodEntry>, name: string)
    requires ValidTemplate(t)
    requires forall j :: 0 <= j < |pods| ==> Covers(t.checks, runner, pods[j].result)
    ensures var all := AllOfPods(pods);
      Count(all, name, true) + Count(all, name, false) == if ChecksName(t, runner, name) then |pods| else 0
  {
    if |pods| > 0 {
      var init, last := pods[..|pods| - 1], pods[|pods| - 1].result;
      CountInPods(t, runner, init, name);
      CountInPod(t, runner, last, name);
      CountAppend(AllOfPods(init), last.checks, name, true);
      CountAppend(AllOfPods(init), last.checks, name, false);
    }
  }

  /** The pass and fail counters of a check grow, together, by one per pod that ran it. */
  lemma {:induction false} CountersCountPods(t: Template, list: seq<RunnerStatus>, name: string)
    requires ValidTemplate(t) && GenuineList(t, list)
    ensures Count(AllResults(list), name, true) + Count(AllResults(list), name, false) == PodsRunning(t, list, name)
  {
    if |list| > 0 {
      var init, last := list[..|list| - 1], list[|list| - 1];
      CountersCountPods(t, init, name);
      forall j | 0 <= j < |last.pods|
        ensures Covers(t.checks, last.name, last.pods[j].result)
      {
        assert list[|list| - 1].pods[j] == last.pods[j];
      }
      CountInPods(t, last.name, last.pods, name);
      CountAppend(AllResults(init), AllOfPods(last.pods), name, true);
      CountAppend(AllResults(init), AllOfPods(last.pods), name, false);
    }
  }

  ghost predicate SameFor(a: Snapshot, b: Snapshot, key: SuiteKey) {
    && (forall c :: CheckSeries(key, c) in b.lastResult <==> CheckSeries(key, c) in a.lastResult)
    && (forall c :: CheckSeries(key, c) in a.lastResult && CheckSeries(key, c) in b.lastResult ==>
          b.lastResult[CheckSeries(key, c)] == a.lastResult[CheckSeries(key, c)])
    && (key in b.lastCompletion <==> key in a.lastCompletion)
    && (key in a.lastCompletion && key in b.lastCompletion ==> b.lastCompletion[key] == a.lastCompletion[key])
  }

  /** What is exported once a run with a verdict has been recorded and its suite exists: one
      gauge per check of the suite, 1 exactly when every pair of it passed, the completion
      time, and one more result counted for each pod that ran a check. */
  lemma VerdictExported(t: Template, list: seq<RunnerStatus>, a: Snapshot, b: Snapshot, key: SuiteKey, phase: RunPhase,
                        duration: int, completedAt: int)
    requires ValidTemplate(t) && GenuineList(t, list) && Complete(t, EntriesOf(list))
    requires phase == Succeeded || phase == Failed
    requires Recorded(a, b, key, list, phase, duration, completedAt, false)
    ensures forall name :: CheckSeries(key, name) in b.lastResult <==> exists c :: c in t.checks && c.name == name
    ensures forall name :: CheckSeries(key, name) in b.lastResult ==>
      (b.lastResult[CheckSeries(key, name)] <==> PassedEverywhere(t, list, name))
    ensures key in b.lastCompletion && b.lastCompletion[key] == completedAt
    ensures forall name :: var pass, fail := ResultSeries(key, name, true), ResultSeries(key, name, false);
      Get(b.tallies.total, pass) + Get(b.tallies.total, fail)
      == Get(a.tallies.total, pass) + Get(a.tallies.total, fail) + PodsRunning(t, list, name)
  {
    hide ValidTemplate, GenuineList, Complete, IsVerdicts, PassedEverywhere, PodsRunning, Count, Durations;
    var v :| IsVerdicts(v, AllResults(list)) && Replaced(a.lastResult, b.lastResult, key, v);
    GaugesAgreeWithVerdict(t, list, v);
    forall name
      ensures var pass, fail := ResultSeries(key, name, true), ResultSeries(key, name, false);
        Get(b.tallies.total, pass) + Get(b.tallies.total, fail)
        == Get(a.tallies.total, pass) + Get(a.tallies.total, fail) + PodsRunning(t, list, name)
    {
      CountersCountPods(t, list, name);
      assert GrewAt(a.tallies, b.tallies, key, AllResults(list), ResultSeries(key, name, true));
      assert GrewAt(a.tallies, b.tallies, key, AllResults(list), ResultSeries(key, name, false));
    }
  }

  /** Whatever is recorded, no other suite's gauges change; an Error leaves the suite's own
      gauges and counters too; and a verdict of a suite that is gone leaves it no gauge. Each
      run counts once, for its phase. */
  lemma RecordedOnce(list: seq<RunnerStatus>, a: Snapshot, b: Snapshot, key: SuiteKey, phase: RunPhase, duration: int,
                     completedAt: int, suiteGone: bool)
    requires Recorded(a, b, key, list, phase, duration, completedAt, suiteGone)
    ensures forall other :: other != key ==> SameFor(a, b, other)
    ensures phase == Error ==> SameFor(a, b, key) && b.tallies == a.tallies
    ensures (phase == Succeeded || phase == Failed) && suiteGone ==>
      key !in b.lastCompletion && forall c :: CheckSeries(key, c) !in b.lastResult
    ensures forall s :: Get(b.runsTotal, s) == Get(a.runsTotal, s) + if s == PhaseSeries(key, phase) then 1 else 0
    ensures Observations(b.runDurations, key) == Observations(a.runDurations, key) + [duration]
  {
    hide Grew, IsVerdicts;
  }
}
