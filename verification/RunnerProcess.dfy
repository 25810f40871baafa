/** One runner pod from start to exit: fetch the run, execute the assigned checks,
    report, exit. */
module RunnerProcess {
  import opened Types
  import opened RunnerPod
  import opened FanOut
  import FieldOwnership

  /** A pod's result set covers exactly its runner's checks, in order, each result
      being what executing that check reported. */
  ghost predicate GenuineResult(checks: seq<CheckSpec>, runner: string, evidence: seq<Evidence>, body: PodResult) {
    var expected := Filter(checks, runner);
    && |body.checks| == |evidence| == |expected|
    && forall k :: 0 <= k < |expected| ==> Executed(expected[k], evidence[k], body.checks[k])
  }

  lemma EvidenceOf(registry: set<ProbeType>, checks: seq<CheckSpec>, probe: nat -> nat -> Probe,
                   cancelled: nat -> nat -> bool, results: seq<CheckResult>)
    returns (evidence: seq<Evidence>)
    requires |results| == |checks|
    requires forall i: nat :: i < |checks| ==> TaskOutcome(registry, checks[i], i, probe, cancelled, results[i])
    ensures |evidence| == |checks| && forall i :: 0 <= i < |checks| ==> Executed(checks[i], evidence[i], results[i])
  {
    evidence := [];
    for i := 0 to |checks|
      invariant |evidence| == i && forall j :: 0 <= j < i ==> Executed(checks[j], evidence[j], results[j])
    {
      var ev :| Probed(registry, checks[i], probe(i), cancelled(i), ev, results[i]);
      evidence := evidence + [ev];
    }
  }

  /** `fetched` is None when reading the run from the API fails, `fate(k)` what becomes of
      the k-th try to report. The exit code is 0 exactly when the run was fetched and one of
      the tries to apply the whole result set was answered, whatever the verdicts are. */
  method Run(fetched: Option<Template>, registry: set<ProbeType>, runner: string, pod: string, node: string,
             maxConcurrent: int, schedule: seq<TaskEvent>, probe: nat -> nat -> Probe, cancelled: nat -> nat -> bool,
             server: FieldOwnership.StatusServer, tries: nat, fate: nat -> FieldOwnership.Delivery)
    returns (exitZero: bool, ghost body: PodResult, ghost evidence: seq<Evidence>)
    requires server.Valid() && 0 < tries <= FieldOwnership.REPORT_STEPS
    requires fetched.Some? ==> Complete(|Filter(fetched.value.checks, runner)|, Limit(maxConcurrent), schedule)
    modifies server
    ensures server.Valid()
    ensures fetched.None? ==> !exitZero && server.status == old(server.status)
    ensures fetched.Some? ==> body.nodeName == node && GenuineResult(fetched.value.checks, runner, evidence, body)
    ensures fetched.Some? ==> var checks := Filter(fetched.value.checks, runner);
      forall i: nat :: i < |checks| ==> TaskOutcome(registry, checks[i], i, probe, cancelled, body.checks[i])
    ensures fetched.Some? ==>
      var doc := FieldOwnership.PodDoc(runner, pod, body);
      var accepted := !FieldOwnership.Conflicts(old(server.status), pod, doc);
      && (exitZero <==> accepted && exists k: nat :: k < tries && fate(k) == FieldOwnership.Answered)
      && server.status == if accepted && exists k: nat :: k < tries && fate(k) != FieldOwnership.Lost
                          then FieldOwnership.Apply(old(server.status), pod, doc) else old(server.status)
  {
    body, evidence := PodResult(node, []), [];
    if fetched.None? {
      return false, body, evidence;
    }
    var checks := FilterChecks(fetched.value.checks, runner);
    var results, group := ExecuteChecks(registry, checks, maxConcurrent, schedule, probe, cancelled);
    evidence := EvidenceOf(registry, checks, probe, cancelled, results);
    var report := PodResult(node, results);
    body := report;
    exitZero := FieldOwnership.Report(server, runner, pod, report, tries, fate);
  }
}
