/** The verdict over all reported results. */
module Aggregation {
  import opened Types
  import opened RunnerPod

  // ---------------------------------------------------- lists and keyed maps

  /** The API keeps both list levels keyed by name. */
  ghost predicate UniqueKeys(list: seq<RunnerStatus>) {
    && (forall i, j :: 0 <= i < j < |list| ==> list[i].name != list[j].name)
    && (forall i :: 0 <= i < |list| ==> UniquePods(list[i].pods))
  }

  ghost predicate UniquePods(pods: seq<PodEntry>) {
    forall i, j :: 0 <= i < j < |pods| ==> pods[i].podName != pods[j].podName
  }

  function PodMap(pods: seq<PodEntry>): map<string, PodResult> {
    if |pods| == 0 then map[]
    else var p := pods[|pods| - 1]; PodMap(pods[..|pods| - 1])[p.podName := p.result]
  }

  /** The keyed maps a status.runners list denotes; on a repeated runner key the last
      item wins, as in the map the aggregation builds first. */
  function EntriesOf(list: seq<RunnerStatus>): Entries {
    if |list| == 0 then map[]
    else var r := list[|list| - 1]; EntriesOf(list[..|list| - 1])[r.name := PodMap(r.pods)]
  }

  lemma {:induction false} PodMapAt(pods: seq<PodEntry>, i: nat)
    requires UniquePods(pods) && i < |pods|
    ensures pods[i].podName in PodMap(pods) && PodMap(pods)[pods[i].podName] == pods[i].result
  {
    if i < |pods| - 1 {
      PodMapAt(pods[..|pods| - 1], i);
    }
  }

  lemma {:induction false} PodMapKey(pods: seq<PodEntry>, p: string) returns (i: nat)
    requires p in PodMap(pods)
    ensures i < |pods| && pods[i].podName == p
  {
    if pods[|pods| - 1].podName == p {
      i := |pods| - 1;
    } else {
      i := PodMapKey(pods[..|pods| - 1], p);
    }
  }

  lemma {:induction false} PodMapSize(pods: seq<PodEntry>)
    requires UniquePods(pods)
    ensures |PodMap(pods)| == |pods|
  {
    if |pods| > 0 {
      var init, last := pods[..|pods| - 1], pods[|pods| - 1].podName;
      PodMapSize(init);
      if last in PodMap(init) {
        var i := PodMapKey(init, last);
      }
      assert last !in PodMap(init);
      assert PodMap(pods).Keys == PodMap(init).Keys + {last};
    }
  }

  // ------------------------------------------------------ definition of a verdict

  /** A pod's entry for a check name: its first result of that name, if any. */
  function FirstResult(results: seq<CheckResult>, name: string): Option<CheckResult> {
    if |results| == 0 then None
    else if results[0].name == name then Some(results[0])
    else FirstResult(results[1..], name)
  }

  /** A missing result counts as a failure. */
  predicate PassedIn(body: PodResult, name: string) {
    var r := FirstResult(body.checks, name);
    r.Some? && r.value.passed
  }

  ghost predicate PassedOnAll(pods: map<string, PodResult>, name: string) {
    forall p :: p in pods ==> PassedIn(pods[p], name)
  }

  predicate RunnerComplete(rn: RunnerSpec, entries: Entries) {
    |PodsOf(entries, rn.name)| >= Replicas(rn)
  }

  predicate Complete(t: Template, entries: Entries) {
    forall i :: 0 <= i < |t.runners| ==> RunnerComplete(t.runners[i], entries)
  }

  datatype Pair = Pair(runner: string, check: string)

  function PairsOfRunner(checks: seq<CheckSpec>, runner: string): seq<Pair> {
    seq(|checks|, i requires 0 <= i < |checks| => Pair(runner, checks[i].name))
  }

  /** Every (runner, check) pair of the first `n` runners, in order. */
  function PairsUpTo(t: Template, n: nat): seq<Pair>
    requires n <= |t.runners|
  {
    if n == 0 then []
    else PairsUpTo(t, n - 1) + PairsOfRunner(Filter(t.checks, t.runners[n - 1].name), t.runners[n - 1].name)
  }

  function Pairs(t: Template): seq<Pair> {
    PairsUpTo(t, |t.runners|)
  }

  ghost predicate PairPassed(entries: Entries, p: Pair) {
    PassedOnAll(PodsOf(entries, p.runner), p.check)
  }

  ghost function FailingOf(entries: Entries, pairs: seq<Pair>): seq<Pair> {
    if |pairs| == 0 then []
    else
      var last := pairs[|pairs| - 1];
      FailingOf(entries, pairs[..|pairs| - 1]) + if PairPassed(entries, last) then [] else [last]
  }

  ghost function Failing(t: Template, entries: Entries): seq<Pair> {
    FailingOf(entries, Pairs(t))
  }

  ghost function SummaryOf(t: Template, entries: Entries): Summary {
    var failed := |Failing(t, entries)|;
    Summary(|Pairs(t)|, |Pairs(t)| - failed, failed)
  }

  /** The first result of the name decides, and there has to be one. */
  ghost predicate PassReported(results: seq<CheckResult>, name: string) {
    exists k :: 0 <= k < |results| && results[k].name == name && results[k].passed
                && forall j :: 0 <= j < k ==> results[j].name != name
  }

  lemma {:induction false} FirstResultDecides(results: seq<CheckResult>, name: string)
    ensures PassedIn(PodResult("", results), name) <==> PassReported(results, name)
  {
    if |results| > 0 && results[0].name != name {
      var rest := results[1..];
      FirstResultDecides(rest, name);
      if PassReported(rest, name) {
        var k :| 0 <= k < |rest| && rest[k].name == name && rest[k].passed && forall j :: 0 <= j < k ==> rest[j].name != name;
        assert results[k + 1] == rest[k];
        assert forall j :: 0 < j < k + 1 ==> results[j] == rest[j - 1];
      }
      if PassReported(results, name) {
        var k :| 0 <= k < |results| && results[k].name == name && results[k].passed && forall j :: 0 <= j < k ==> results[j].name != name;
        assert rest[k - 1] == results[k];
        assert forall j :: 0 <= j < k - 1 ==> rest[j] == results[j + 1];
      }
    } else if |results| > 0 {
      assert results[0].passed ==> PassReported(results, name);
    }
  }

  // --------------------------------------------------------------- the loops

  method PodPasses(results: seq<CheckResult>, name: string) returns (passed: bool)
    ensures passed == PassedIn(PodResult("", results), name)
    ensures passed <==> exists k :: 0 <= k < |results| && results[k].name == name && results[k].passed
                                    && forall j :: 0 <= j < k ==> results[j].name != name
  {
    FirstResultDecides(results, name);
    passed := true;
    var found := false;
    var i := 0;
    while i < |results| && !found
      invariant 0 <= i <= |results|
      invariant !found ==> passed && FirstResult(results, name) == FirstResult(results[i..], name)
      invariant found ==> passed == PassedIn(PodResult("", results), name)
      decreases |results| - i, !found
    {
      assert results[i..][1..] == results[i + 1..];
      if results[i].name == name {
        found := true;
        if !results[i].passed {
          passed := false;
        }
      }
      i := i + 1;
    }
    if !found {
      passed := false;
    }
  }

  method PodsPass(pods: seq<PodEntry>, name: string) returns (passed: bool)
    requires UniquePods(pods)
    ensures passed <==> PassedOnAll(PodMap(pods), name)
  {
    passed := true;
    for i := 0 to |pods|
      invariant passed <==> forall j :: 0 <= j < i ==> PassedIn(pods[j].result, name)
    {
      var ok := PodPasses(pods[i].result.checks, name);
      if !ok {
        passed := false;
      }
    }
    if passed {
      forall p | p in PodMap(pods)
        ensures PassedIn(PodMap(pods)[p], name)
      {
        var j := PodMapKey(pods, p);
        PodMapAt(pods, j);
      }
    } else {
      var j :| 0 <= j < |pods| && !PassedIn(pods[j].result, name);
      PodMapAt(pods, j);
    }
  }

  ghost predicate Indexes(byRunner: map<string, seq<PodEntry>>, entries: Entries) {
    && byRunner.Keys == entries.Keys
    && forall r :: r in byRunner ==> UniquePods(byRunner[r]) && PodMap(byRunner[r]) == entries[r]
  }

  lemma LookupPods(byRunner: map<string, seq<PodEntry>>, entries: Entries, runner: string)
    requires Indexes(byRunner, entries)
    ensures var pods := Lookup(byRunner, runner);
      UniquePods(pods) && PodMap(pods) == PodsOf(entries, runner) && |pods| == |PodsOf(entries, runner)|
  {
    PodMapSize(Lookup(byRunner, runner));
  }

  /** status.runners as a lookup table from runner name to its pod list. */
  method PodsByRunner(list: seq<RunnerStatus>) returns (byRunner: map<string, seq<PodEntry>>)
    requires UniqueKeys(list)
    ensures Indexes(byRunner, EntriesOf(list))
  {
    byRunner := map[];
    for i := 0 to |list|
      invariant Indexes(byRunner, EntriesOf(list[..i]))
    {
      assert list[..i + 1][..i] == list[..i];
      byRunner := byRunner[list[i].name := list[i].pods];
    }
    assert list[..|list|] == list;
  }

  function Lookup(byRunner: map<string, seq<PodEntry>>, runner: string): seq<PodEntry> {
    if runner in byRunner then byRunner[runner] else []
  }

  lemma {:induction false} FailingAppend(entries: Entries, a: seq<Pair>, b: seq<Pair>)
    ensures FailingOf(entries, a + b) == FailingOf(entries, a) + FailingOf(entries, b)
  {
    if |b| == 0 {
      assert a + b == a;
    } else {
      assert (a + b)[..|a + b| - 1] == a + b[..|b| - 1];
      FailingAppend(entries, a, b[..|b| - 1]);
    }
  }

  /** The counters after the first `n` runners, all of them complete. */
  ghost predicate Tallied(t: Template, entries: Entries, n: nat, s: Summary, failing: seq<Pair>)
    requires n <= |t.runners|
  {
    && (forall i :: 0 <= i < n ==> RunnerComplete(t.runners[i], entries))
    && failing == FailingOf(entries, PairsUpTo(t, n))
    && s.total == |PairsUpTo(t, n)| && s.failed == |failing| && s.passed == s.total - s.failed
  }

  lemma TallyRunner(t: Template, entries: Entries, n: nat, s: Summary, failing: seq<Pair>,
                    checks: seq<CheckSpec>, here: seq<Pair>)
    requires n < |t.runners| && Tallied(t, entries, n, s, failing)
    requires RunnerComplete(t.runners[n], entries)
    requires checks == Filter(t.checks, t.runners[n].name)
    requires here == FailingOf(entries, PairsOfRunner(checks, t.runners[n].name))
    ensures Tallied(t, entries, n + 1,
                    Summary(s.total + |checks|, s.passed + |checks| - |here|, s.failed + |here|), failing + here)
  {
    var before, mine := PairsUpTo(t, n), PairsOfRunner(checks, t.runners[n].name);
    assert PairsUpTo(t, n + 1) == before + mine;
    FailingAppend(entries, before, mine);
  }

  /** The verdicts of one runner's checks over the entries of its pods. */
  method AggregateRunner(runner: string, checks: seq<CheckSpec>, pods: seq<PodEntry>, ghost entries: Entries)
    returns (passed: int, failed: int, failing: seq<Pair>)
    requires UniquePods(pods) && PodMap(pods) == PodsOf(entries, runner)
    ensures failing == FailingOf(entries, PairsOfRunner(checks, runner))
    ensures failed == |failing| && passed == |checks| - failed
  {
    ghost var mine := PairsOfRunner(checks, runner);
    passed, failed, failing := 0, 0, [];
    for c := 0 to |checks|
      invariant failing == FailingOf(entries, mine[..c])
      invariant failed == |failing| && passed == c - failed
    {
      assert mine[..c + 1][..c] == mine[..c];
      var ok := PodsPass(pods, checks[c].name);
      if ok {
        passed := passed + 1;
      } else {
        failed := failed + 1;
        failing := failing + [Pair(runner, checks[c].name)];
      }
    }
    assert mine[..|checks|] == mine;
  }

  /** One iteration of the outer loop: runner `n` joins the tally, or is incomplete. */
  method AggregateNext(t: Template, byRunner: map<string, seq<PodEntry>>, n: nat, before: Summary, soFar: seq<Pair>,
                       ghost entries: Entries)
    returns (complete: bool, summary: Summary, failing: seq<Pair>)
    requires n < |t.runners| && Indexes(byRunner, entries) && Tallied(t, entries, n, before, soFar)
    ensures complete == RunnerComplete(t.runners[n], entries)
    ensures complete ==> Tallied(t, entries, n + 1, summary, failing)
  {
    var rn := t.runners[n];
    var pods := Lookup(byRunner, rn.name);
    LookupPods(byRunner, entries, rn.name);
    if |pods| < Replicas(rn) {
      return false, before, soFar;
    }
    var checks := FilterChecks(t.checks, rn.name);
    var passed, failed, here := AggregateRunner(rn.name, checks, pods, entries);
    TallyRunner(t, entries, n, before, soFar, checks, here);
    complete := true;
    summary := Summary(before.total + |checks|, before.passed + passed, before.failed + failed);
    failing := soFar + here;
  }

  method Aggregate(t: Template, list: seq<RunnerStatus>)
    returns (complete: bool, summary: Summary, failing: seq<Pair>)
    requires UniqueKeys(list)
    ensures complete == Complete(t, EntriesOf(list))
    ensures complete ==> summary == SummaryOf(t, EntriesOf(list)) && failing == Failing(t, EntriesOf(list))
    ensures !complete ==> summary == Summary(0, 0, 0) && failing == []
  {
    var byRunner := PodsByRunner(list);
    ghost var entries := EntriesOf(list);
    complete, summary, failing := true, Summary(0, 0, 0), [];
    for n := 0 to |t.runners|
      invariant complete && Tallied(t, entries, n, summary, failing)
    {
      complete, summary, failing := AggregateNext(t, byRunner, n, summary, failing, entries);
      if !complete {
        return false, Summary(0, 0, 0), [];
      }
    }
  }

  // ------------------------------------------------- what the verdict means

  lemma {:induction false} FailingMembers(entries: Entries, pairs: seq<Pair>)
    ensures forall p :: p in FailingOf(entries, pairs) <==> p in pairs && !PairPassed(entries, p)
    ensures |FailingOf(entries, pairs)| <= |pairs|
  {
    if |pairs| > 0 {
      var init, last := pairs[..|pairs| - 1], pairs[|pairs| - 1];
      FailingMembers(entries, init);
      assert pairs == init + [last];
    }
  }

  /** The pairs counted are exactly a suite runner with one of its own checks. */
  lemma {:induction false} PairsUpToMembers(t: Template, n: nat)
    requires n <= |t.runners|
    ensures forall p :: p in PairsUpTo(t, n) <==>
      exists i :: 0 <= i < n && t.runners[i].name == p.runner && ChecksName(t, p.runner, p.check)
  {
    if n > 0 {
      PairsUpToMembers(t, n - 1);
      var r := t.runners[n - 1].name;
      var checks := Filter(t.checks, r);
      var mine := PairsOfRunner(checks, r);
      forall p
        ensures p in mine <==> p.runner == r && ChecksName(t, r, p.check)
      {
        if p.runner == r && ChecksName(t, r, p.check) {
          var k :| 0 <= k < |checks| && checks[k].name == p.check;
          assert mine[k] == p;
        }
      }
      forall p
        ensures p in PairsUpTo(t, n) <==>
          exists i :: 0 <= i < n && t.runners[i].name == p.runner && ChecksName(t, p.runner, p.check)
      {
        if p in mine { assert t.runners[n - 1].name == p.runner; }
      }
    }
  }

  ghost predicate ChecksName(t: Template, runner: string, check: string) {
    var checks := Filter(t.checks, runner);
    exists k :: 0 <= k < |checks| && checks[k].name == check
  }

  /** Total counts (runner, check) pairs and splits into passed and failed; nothing
      failed exactly when every pair passed on every pod. */
  lemma SummaryMeaning(t: Template, entries: Entries)
    ensures var s := SummaryOf(t, entries);
      && s.total == s.passed + s.failed && s.passed >= 0 && s.failed >= 0
      && s.total == TotalChecks(t, |t.runners|)
      && (s.failed == 0 <==>
          forall i, name :: 0 <= i < |t.runners| && ChecksName(t, t.runners[i].name, name) ==>
            PassedOnAll(PodsOf(entries, t.runners[i].name), name))
  {
    FailingMembers(entries, Pairs(t));
    PairsUpToMembers(t, |t.runners|);
    PairCount(t, |t.runners|);
    var failing := Failing(t, entries);
    if |failing| > 0 {
      var p := failing[0];
      assert p in failing;
    } else {
      forall i, name | 0 <= i < |t.runners| && ChecksName(t, t.runners[i].name, name)
        ensures PassedOnAll(PodsOf(entries, t.runners[i].name), name)
      {
        var p := Pair(t.runners[i].name, name);
        assert p in Pairs(t) && p !in failing;
      }
    }
  }

  function TotalChecks(t: Template, n: nat): nat
    requires n <= |t.runners|
  {
    if n == 0 then 0 else TotalChecks(t, n - 1) + |Filter(t.checks, t.runners[n - 1].name)|
  }

  lemma {:induction false} PairCount(t: Template, n: nat)
    requires n <= |t.runners|
    ensures |PairsUpTo(t, n)| == TotalChecks(t, n)
  {
    if n > 0 { PairCount(t, n - 1); }
  }

  lemma ChecksNameOf(t: Template, runner: string, check: string)
    requires forall i, j :: 0 <= i < j < |t.checks| ==> t.checks[i].name != t.checks[j].name
    ensures ChecksName(t, runner, check) <==>
      exists j :: 0 <= j < |t.checks| && t.checks[j].name == check && (t.checks[j].runners == [] || runner in t.checks[j].runners)
  {
    FilterKeepsNamesUnique(t.checks, runner);
    var mine := Filter(t.checks, runner);
    if ChecksName(t, runner, check) {
      var k :| 0 <= k < |mine| && mine[k].name == check;
      assert mine[k] in t.checks;
    }
    if j :| 0 <= j < |t.checks| && t.checks[j].name == check && (t.checks[j].runners == [] || runner in t.checks[j].runners) {
      assert t.checks[j] in mine;
    }
  }

  /** Results are complete exactly when every runner has as many entries as replicas, one
      when unset, or more. */
  lemma CompleteMeaning(t: Template, entries: Entries)
    ensures Complete(t, entries) <==> forall i :: 0 <= i < |t.runners| ==>
      var rn := t.runners[i];
      (if rn.name in entries then |entries[rn.name]| else 0) >= (if rn.replicas.Some? then rn.replicas.value else 1)
  {
  }

  /** A pair fails exactly on an assigned check for which some entry of the runner does not
      report a pass: its first result of that name says otherwise, or there is none. */
  ghost predicate FailsAt(t: Template, entries: Entries, i: nat, j: nat)
    requires i < |t.runners| && j < |t.checks|
  {
    && (t.checks[j].runners == [] || t.runners[i].name in t.checks[j].runners)
    && exists p :: p in PodsOf(entries, t.runners[i].name)
                   && !PassReported(PodsOf(entries, t.runners[i].name)[p].checks, t.checks[j].name)
  }

  lemma PassedOnAllReported(pods: map<string, PodResult>, name: string)
    ensures PassedOnAll(pods, name) <==> forall p :: p in pods ==> PassReported(pods[p].checks, name)
  {
    forall p | p in pods
      ensures PassedIn(pods[p], name) <==> PassReported(pods[p].checks, name)
    {
      FirstResultDecides(pods[p].checks, name);
    }
  }

  /** Those pairs, by runner and check name. */
  ghost function AssignedPairs(t: Template): set<Pair> {
    set i, j | 0 <= i < |t.runners| && 0 <= j < |t.checks| && (t.checks[j].runners == [] || t.runners[i].name in t.checks[j].runners) ::
      Pair(t.runners[i].name, t.checks[j].name)
  }

  ghost function FailingPairs(t: Template, entries: Entries): set<Pair> {
    set i, j | 0 <= i < |t.runners| && 0 <= j < |t.checks| && FailsAt(t, entries, i, j) ::
      Pair(t.runners[i].name, t.checks[j].name)
  }

  lemma {:induction false} SizeOfDistinct(pairs: seq<Pair>, all: set<Pair>)
    requires NoRepeats(pairs) && forall p :: p in pairs <==> p in all
    ensures |all| == |pairs|
  {
    if |pairs| == 0 {
      assert all == {};
    } else {
      var init, last := pairs[..|pairs| - 1], pairs[|pairs| - 1];
      assert pairs == init + [last];
      SizeOfDistinct(init, all - {last});
    }
  }

  lemma {:induction false} PairsDistinct(t: Template, n: nat)
    requires ValidTemplate(t) && n <= |t.runners|
    ensures NoRepeats(PairsUpTo(t, n))
  {
    if n > 0 {
      PairsDistinct(t, n - 1);
      PairsUpToMembers(t, n - 1);
      var before, r := PairsUpTo(t, n - 1), t.runners[n - 1].name;
      FilterKeepsNamesUnique(t.checks, r);
      forall i | 0 <= i < |before|
        ensures before[i].runner != r
      {
        assert before[i] in before;
      }
    }
  }

  lemma {:induction false} FailingDistinct(entries: Entries, pairs: seq<Pair>)
    requires NoRepeats(pairs)
    ensures NoRepeats(FailingOf(entries, pairs))
  {
    if |pairs| > 0 {
      var init, last := pairs[..|pairs| - 1], pairs[|pairs| - 1];
      FailingDistinct(entries, init);
      FailingMembers(entries, init);
      var f := FailingOf(entries, init);
      forall i | 0 <= i < |f|
        ensures f[i] != last
      {
        assert f[i] in init;
      }
    }
  }

  lemma PairsAreAssigned(t: Template, p: Pair)
    requires ValidTemplate(t)
    ensures p in Pairs(t) <==> p in AssignedPairs(t)
  {
    PairsUpToMembers(t, |t.runners|);
    ChecksNameOf(t, p.runner, p.check);
  }

  lemma FailingAreFailing(t: Template, entries: Entries, p: Pair)
    requires ValidTemplate(t)
    ensures p in Failing(t, entries) <==> p in FailingPairs(t, entries)
  {
    FailingMembers(entries, Pairs(t));
    PairsAreAssigned(t, p);
    PassedOnAllReported(PodsOf(entries, p.runner), p.check);
  }

  /** The summary counts each assigned (runner, check) pair once: all of them, those that
      fail, and the rest. */
  lemma SummaryCounts(t: Template, entries: Entries)
    requires ValidTemplate(t)
    ensures var s := SummaryOf(t, entries);
      && s.total == |AssignedPairs(t)| && s.failed == |FailingPairs(t, entries)|
      && s.passed == |AssignedPairs(t) - FailingPairs(t, entries)|
  {
    hide Filter, ChecksName, FailsAt, PassReported, PassedOnAll, ValidTemplate;
    PairsDistinct(t, |t.runners|);
    forall p
      ensures p in Pairs(t) <==> p in AssignedPairs(t)
      ensures p in Failing(t, entries) <==> p in FailingPairs(t, entries)
    {
      PairsAreAssigned(t, p);
      FailingAreFailing(t, entries, p);
    }
    SizeOfDistinct(Pairs(t), AssignedPairs(t));
    FailingDistinct(entries, Pairs(t));
    SizeOfDistinct(Failing(t, entries), FailingPairs(t, entries));
    FailingMembers(entries, Pairs(t));
    assert FailingPairs(t, entries) <= AssignedPairs(t);
  }

  /** Whether a run fails: exactly when some entry lacks a reported pass for a check
      assigned to its runner. */
  lemma FailsExactly(t: Template, entries: Entries)
    requires ValidTemplate(t)
    ensures SummaryOf(t, entries).failed > 0 <==>
      exists i, j :: 0 <= i < |t.runners| && 0 <= j < |t.checks| && FailsAt(t, entries, i, j)
  {
    hide FailsAt, ValidTemplate, SummaryOf;
    SummaryCounts(t, entries);
    var failing := FailingPairs(t, entries);
    if i, j :| 0 <= i < |t.runners| && 0 <= j < |t.checks| && FailsAt(t, entries, i, j) {
      assert Pair(t.runners[i].name, t.checks[j].name) in failing;
    } else {
      assert failing == {};
    }
  }

  // ------------------------------------------------------------ monotonicity

  /** Reports are only ever added: every entry of `a` is still there in `b`. */
  ghost predicate EntriesGrow(a: Entries, b: Entries) {
    forall r, p :: p in PodsOf(a, r) ==> p in PodsOf(b, r) && PodsOf(b, r)[p] == PodsOf(a, r)[p]
  }

  lemma SubsetSize<T>(a: set<T>, b: set<T>)
    requires a <= b
    ensures |a| <= |b|
  {
    assert b == a + (b - a);
  }

  ghost predicate SomeFails(t: Template, entries: Entries) {
    exists p :: p in Pairs(t) && !PairPassed(entries, p)
  }

  /** Completeness and failure, once reached, survive every later report. */
  lemma VerdictMonotone(t: Template, a: Entries, b: Entries)
    requires EntriesGrow(a, b)
    ensures Complete(t, a) ==> Complete(t, b)
    ensures SomeFails(t, a) ==> SomeFails(t, b)
  {
    forall i | 0 <= i < |t.runners| && RunnerComplete(t.runners[i], a)
      ensures RunnerComplete(t.runners[i], b)
    {
      var r := t.runners[i].name;
      SubsetSize(PodsOf(a, r).Keys, PodsOf(b, r).Keys);
    }
    if SomeFails(t, a) {
      var p :| p in Pairs(t) && !PairPassed(a, p);
      assert !PairPassed(b, p);
    }
  }

  lemma FailedCountsFailures(t: Template, entries: Entries)
    ensures SummaryOf(t, entries).failed > 0 <==> SomeFails(t, entries)
  {
    FailingMembers(entries, Pairs(t));
    var failing := Failing(t, entries);
    if |failing| > 0 {
      assert failing[0] in failing;
    }
  }
}
