/** In-pod execution of single checks: which checks a runner executes, and the retry loop
    around one probe. */
module RunnerPod {
  import opened Types

  // ---------------------------------------------------------------- assignment

  predicate Assigned(c: CheckSpec, runner: string) {
    |c.runners| == 0 || runner in c.runners
  }

  function Filter(checks: seq<CheckSpec>, runner: string): seq<CheckSpec> {
    if |checks| == 0 then []
    else
      var last := checks[|checks| - 1];
      Filter(checks[..|checks| - 1], runner) + if Assigned(last, runner) then [last] else []
  }

  method FilterChecks(checks: seq<CheckSpec>, runner: string) returns (out: seq<CheckSpec>)
    ensures out == Filter(checks, runner)
  {
    out := [];
    for i := 0 to |checks|
      invariant out == Filter(checks[..i], runner)
    {
      assert checks[..i + 1][..i] == checks[..i];
      var c := checks[i];
      if |c.runners| == 0 || runner in c.runners {
        out := out + [c];
      }
    }
    assert checks[..|checks|] == checks;
  }

  /** The positions a runner's checks come from: strictly increasing, and exactly the
      positions of the checks that restrict no runner or name this one. */
  ghost predicate SelectedAt(checks: seq<CheckSpec>, runner: string, out: seq<CheckSpec>, at: seq<int>) {
    && |at| == |out|
    && (forall k :: 0 <= k < |at| ==> 0 <= at[k] < |checks| && out[k] == checks[at[k]])
    && (forall k, l :: 0 <= k < l < |at| ==> at[k] < at[l])
    && (forall i :: 0 <= i < |checks| ==> (i in at <==> checks[i].runners == [] || runner in checks[i].runners))
  }

  lemma {:induction false} FilterSelects(checks: seq<CheckSpec>, runner: string) returns (at: seq<int>)
    ensures SelectedAt(checks, runner, Filter(checks, runner), at)
  {
    if |checks| == 0 {
      at := [];
    } else {
      var n := |checks| - 1;
      var init := checks[..n];
      var front := FilterSelects(init, runner);
      assert checks == init + [checks[n]];
      SelectOneMore(init, checks[n], runner, Filter(init, runner), front);
      at := if Assigned(checks[n], runner) then front + [n] else front;
    }
  }

  lemma SelectOneMore(init: seq<CheckSpec>, c: CheckSpec, runner: string, out: seq<CheckSpec>, at: seq<int>)
    requires SelectedAt(init, runner, out, at)
    ensures Assigned(c, runner) ==> SelectedAt(init + [c], runner, out + [c], at + [|init|])
    ensures !Assigned(c, runner) ==> SelectedAt(init + [c], runner, out, at)
  {
    var checks := init + [c];
    var all := if Assigned(c, runner) then at + [|init|] else at;
    forall i | 0 <= i < |checks|
      ensures i in all <==> checks[i].runners == [] || runner in checks[i].runners
    {
      if i < |init| {
        assert checks[i] == init[i];
      }
    }
  }

  /** Unique check names stay unique, and every filtered check is one of the suite's. */
  lemma FilterKeepsNamesUnique(checks: seq<CheckSpec>, runner: string)
    requires forall i, j :: 0 <= i < j < |checks| ==> checks[i].name != checks[j].name
    ensures var f := Filter(checks, runner);
      && (forall k, l :: 0 <= k < l < |f| ==> f[k].name != f[l].name)
      && (forall c :: c in f <==> c in checks && (c.runners == [] || runner in c.runners))
  {
    var at := FilterSelects(checks, runner);
    var f := Filter(checks, runner);
    forall c | c in f
      ensures c in checks && (c.runners == [] || runner in c.runners)
    {
      var k :| 0 <= k < |f| && f[k] == c;
      assert at[k] in at;
    }
    forall c | c in checks && (c.runners == [] || runner in c.runners)
      ensures c in f
    {
      var i :| 0 <= i < |checks| && checks[i] == c;
      assert i in at;
      var k :| 0 <= k < |at| && at[k] == i;
      assert f[k] == c;
    }
  }

  // --------------------------------------------------------------- retry loop

  const MAX_MESSAGE_LENGTH := 1024
  const UNKNOWN_TYPE := "unknown check type (runner image too old?)"

  datatype Probe = Probe(success: bool, message: string, duration: int)

  function Observed(p: Probe): Outcome {
    if p.success then Success else Failure
  }

  function Expected(spec: CheckSpec): Outcome {
    if spec.expectation.Some? then spec.expectation.value else Success
  }

  function MaxAttempts(spec: CheckSpec): int {
    if spec.retries.Some? && spec.retries.value.attempts > 0 then spec.retries.value.attempts else 1
  }

  predicate Known(registry: set<ProbeType>, spec: CheckSpec) {
    spec.probe != NoProbe && spec.probe in registry
  }

  /** What happened while a check ran: whether its type was known, and the
      observation of every probe made, in order. */
  datatype Evidence = Evidence(known: bool, seen: seq<Outcome>)

  /** The evidence shows the check held: the last observation met the expectation. */
  ghost predicate Holds(spec: CheckSpec, ev: Evidence) {
    ev.known && |ev.seen| > 0 && ev.seen[|ev.seen| - 1] == Expected(spec)
  }

  /** `res` is what running `spec` reports when `ev` happened. */
  ghost predicate Executed(spec: CheckSpec, ev: Evidence, res: CheckResult) {
    && res.name == spec.name
    && (res.passed <==> Holds(spec, ev))
    && |res.message| <= MAX_MESSAGE_LENGTH
    && 1 <= res.attempts <= MaxAttempts(spec)
    && if ev.known then
         && 1 <= |ev.seen| <= MaxAttempts(spec)
         && res.observed == ev.seen[|ev.seen| - 1]
         && (forall k :: 0 <= k < |ev.seen| - 1 ==> ev.seen[k] != Expected(spec))
         && res.attempts == (if res.passed then |ev.seen| else MaxAttempts(spec))
         && res.duration.Some?
       else
         && ev.seen == []
         && res.observed == Failure
         && res.attempts == 1
         && res.message == UNKNOWN_TYPE
         && res.duration.None?
  }

  /** Messages are cut to what a result may carry. */
  function Cut(message: string): string {
    if |message| > MAX_MESSAGE_LENGTH then message[..MAX_MESSAGE_LENGTH] else message
  }

  const MILLISECOND: int := 1_000_000

  /** Rounded to whole milliseconds, halves away from zero. */
  function Rounded(duration: int): int {
    if duration < 0 then -((-duration + MILLISECOND / 2) / MILLISECOND * MILLISECOND)
    else (duration + MILLISECOND / 2) / MILLISECOND * MILLISECOND
  }

  /** `res` comes from probing in order, waiting between probes, until one met the
      expectation, the attempts ran out or a wait was cancelled; `ev` is the trail. */
  ghost predicate Probed(registry: set<ProbeType>, spec: CheckSpec, probe: nat -> Probe, cancelled: nat -> bool,
                         ev: Evidence, res: CheckResult) {
    && Executed(spec, ev, res)
    && ev.known == Known(registry, spec)
    && (forall k :: 0 <= k < |ev.seen| ==> ev.seen[k] == Observed(probe(k)))
    && (forall k :: 0 <= k < |ev.seen| - 1 ==> !cancelled(k))
    && (ev.known && !res.passed && |ev.seen| < MaxAttempts(spec) ==> cancelled(|ev.seen| - 1))
    && (ev.known ==> var last := probe(|ev.seen| - 1);
          res.message == Cut(last.message) && res.duration == Some(Rounded(last.duration)))
  }

  /** `probe(k)` is what the k-th probe would find; `cancelled(k)` says whether the
      context ends the wait that follows it. */
  method ExecuteCheck(registry: set<ProbeType>, spec: CheckSpec, probe: nat -> Probe, cancelled: nat -> bool)
    returns (res: CheckResult)
    ensures exists ev :: Probed(registry, spec, probe, cancelled, ev, res)
  {
    var expected := if spec.expectation.Some? then spec.expectation.value else Success;
    if !(spec.probe != NoProbe && spec.probe in registry) {
      res := CheckResult(spec.name, false, Failure, 1, UNKNOWN_TYPE, None);
      assert Probed(registry, spec, probe, cancelled, Evidence(false, []), res);
      return;
    }
    var attempts := 1;
    if spec.retries.Some? {
      if spec.retries.value.attempts > 0 {
        attempts := spec.retries.value.attempts;
      }
    }
    ghost var seen: seq<Outcome> := [];
    var attempt := 0;
    var last := probe(0);
    var observed := Failure;
    while true
      invariant 0 <= attempt < attempts == MaxAttempts(spec)
      invariant |seen| == attempt
      invariant forall k :: 0 <= k < |seen| ==> seen[k] == Observed(probe(k)) && seen[k] != expected && !cancelled(k)
      decreases attempts - attempt
    {
      last := probe(attempt);
      attempt := attempt + 1;
      observed := if last.success then Success else Failure;
      seen := seen + [observed];
      if observed == expected || attempt >= attempts {
        break;
      }
      if cancelled(attempt - 1) {
        attempt := attempts; // leaves the loop with what was observed last
      }
      if attempt >= attempts {
        break;
      }
    }
    var message := last.message;
    if |message| > MAX_MESSAGE_LENGTH {
      message := message[..MAX_MESSAGE_LENGTH];
    }
    res := CheckResult(spec.name, observed == expected, observed, attempt, message, Some(Rounded(last.duration)));
    assert Probed(registry, spec, probe, cancelled, Evidence(true, seen), res);
  }

  /** What the probes decide. A check of an unknown type fails without a probe. Otherwise it
      passes exactly when its last probe succeeded and no failure is expected, or failed and
      one is; every earlier probe was on the other side and its wait was not cut short. */
  lemma ProbesDecide(registry: set<ProbeType>, spec: CheckSpec, probe: nat -> Probe, cancelled: nat -> bool,
                     ev: Evidence, res: CheckResult)
    requires Probed(registry, spec, probe, cancelled, ev, res)
    ensures ev.known <==> spec.probe != NoProbe && spec.probe in registry
    ensures !ev.known ==>
      && ev.seen == []
      && res == CheckResult(spec.name, false, Failure, 1, "unknown check type (runner image too old?)", None)
    ensures ev.known ==>
      && |ev.seen| > 0
      && (res.passed <==> (probe(|ev.seen| - 1).success <==> spec.expectation != Some(Failure)))
      && (forall k :: 0 <= k < |ev.seen| - 1 ==>
            (probe(k).success <==> spec.expectation == Some(Failure)) && !cancelled(k))
  {
  }

  /** How many probes there are: up to the configured attempts, one when unset, and fewer
      only after one that met the expectation or before a wait that was cancelled. */
  lemma ProbesMade(registry: set<ProbeType>, spec: CheckSpec, probe: nat -> Probe, cancelled: nat -> bool,
                   ev: Evidence, res: CheckResult)
    requires Probed(registry, spec, probe, cancelled, ev, res) && ev.known
    ensures var allowed := if spec.retries.Some? && spec.retries.value.attempts > 0 then spec.retries.value.attempts else 1;
      && 1 <= |ev.seen| <= allowed
      && (res.passed || |ev.seen| == allowed || cancelled(|ev.seen| - 1))
      && res.attempts == if res.passed then |ev.seen| else allowed
  {
  }

  /** What a caller can read off the result alone: a pass needs a known type and a probe
      that met the expectation, and comes with an exact attempt count; without
      cancellation a failure of a known type has used every attempt. */
  lemma ResultMeaning(registry: set<ProbeType>, spec: CheckSpec, probe: nat -> Probe, cancelled: nat -> bool,
                      ev: Evidence, res: CheckResult)
    requires Probed(registry, spec, probe, cancelled, ev, res)
    ensures res.passed <==> spec.probe != NoProbe && spec.probe in registry && exists k: nat {:trigger probe(k)} ::
      k < |ev.seen| && (probe(k).success <==> spec.expectation != Some(Failure))
    ensures res.passed ==> (probe(res.attempts - 1).success <==> spec.expectation != Some(Failure))
    ensures ev.known && !res.passed && (forall k: nat :: !cancelled(k)) ==> |ev.seen| == res.attempts
  {
    ProbesDecide(registry, spec, probe, cancelled, ev, res);
    if ev.known { ProbesMade(registry, spec, probe, cancelled, ev, res); }
  }

  /** What else is reported of the last probe: what it observed, the first 1024 characters of
      its message, and its duration to the nearest millisecond, halves away from zero. */
  lemma LastProbeReported(registry: set<ProbeType>, spec: CheckSpec, probe: nat -> Probe, cancelled: nat -> bool,
                          ev: Evidence, res: CheckResult)
    requires Probed(registry, spec, probe, cancelled, ev, res) && ev.known
    ensures |ev.seen| > 0 && res.duration.Some?
    ensures var last := probe(|ev.seen| - 1); var off := res.duration.value - last.duration;
      && res.name == spec.name
      && (res.observed == Success <==> last.success)
      && res.message <= last.message && |res.message| == (if |last.message| <= 1024 then |last.message| else 1024)
      && res.duration.value % 1_000_000 == 0 && -500_000 <= off <= 500_000
      && (off == 500_000 ==> last.duration > 0) && (off == -500_000 ==> last.duration < 0)
  {
    RoundedIsNearest(probe(|ev.seen| - 1).duration);
  }

  lemma RoundedIsNearest(duration: int)
    ensures var r := Rounded(duration);
      && r % 1_000_000 == 0 && -500_000 <= r - duration <= 500_000
      && (r - duration == 500_000 ==> duration > 0) && (r - duration == -500_000 ==> duration < 0)
  {
  }

  /** The reported attempt count is exact unless cancellation cut the loop short, in
      which case it is the configured maximum and only bounds the probes made. */
  lemma AttemptsCountProbes(spec: CheckSpec, ev: Evidence, res: CheckResult)
    requires Executed(spec, ev, res) && ev.known
    ensures |ev.seen| <= res.attempts
    ensures |ev.seen| == res.attempts <==> res.passed || |ev.seen| == MaxAttempts(spec)
  {
  }

  /** What a check reports is determined by what its probes would find and when its waits
      are cancelled. */
  lemma OneOutcome(registry: set<ProbeType>, spec: CheckSpec, probe: nat -> Probe, cancelled: nat -> bool,
                   ev: Evidence, res: CheckResult, ev': Evidence, res': CheckResult)
    requires Probed(registry, spec, probe, cancelled, ev, res) && Probed(registry, spec, probe, cancelled, ev', res')
    ensures ev == ev' && res == res'
  {
    if ev.known {
      NotShorter(registry, spec, probe, cancelled, ev, res, ev', res');
      NotShorter(registry, spec, probe, cancelled, ev', res', ev, res);
      assert ev.seen == ev'.seen;
    }
  }

  lemma NotShorter(registry: set<ProbeType>, spec: CheckSpec, probe: nat -> Probe, cancelled: nat -> bool,
                   ev: Evidence, res: CheckResult, ev': Evidence, res': CheckResult)
    requires Probed(registry, spec, probe, cancelled, ev, res) && Probed(registry, spec, probe, cancelled, ev', res') && ev.known
    ensures |ev.seen| >= |ev'.seen|
  {
  }
}
