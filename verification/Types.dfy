/** Values shared by the operator's components: the suite template a run executes,
    the results runner pods report, and the status fields the controller owns.
    Times and durations are integers in nanoseconds. */
module Types {
  datatype Option<+T> = None | Some(value: T)

  ghost predicate NoRepeats<T>(s: seq<T>) {
    forall i, j :: 0 <= i < j < |s| ==> s[i] != s[j]
  }

  const SECOND: int := 1_000_000_000

  /** Stored timestamps carry whole seconds. */
  function Stored(time: int): int {
    time - time % SECOND
  }

  /** Raw probe outcome; also the value a check may expect. */
  datatype Outcome = Success | Failure

  datatype ProbeType = TCP | HTTP | GRPC | NoProbe

  /** `attempts` is 0 when the field is unset. */
  datatype RetryPolicy = RetryPolicy(attempts: int)

  datatype CheckSpec = CheckSpec(
    name: string,
    runners: seq<string>,
    probe: ProbeType,
    expectation: Option<Outcome>,
    retries: Option<RetryPolicy>)

  datatype RunnerSpec = RunnerSpec(name: string, replicas: Option<int>)

  datatype Template = Template(
    runners: seq<RunnerSpec>,
    checks: seq<CheckSpec>,
    timeout: Option<int>)

  /** What the schema guarantees: list-map keys are unique, replicas are positive,
      and a check only names runners the suite defines. */
  ghost predicate ValidTemplate(t: Template) {
    && |t.runners| > 0
    && (forall i, j :: 0 <= i < j < |t.runners| ==> t.runners[i].name != t.runners[j].name)
    && (forall i, j :: 0 <= i < j < |t.checks| ==> t.checks[i].name != t.checks[j].name)
    && (forall i :: 0 <= i < |t.runners| ==> Replicas(t.runners[i]) >= 1)
    && (forall i, r :: 0 <= i < |t.checks| && r in t.checks[i].runners ==> IsRunner(t, r))
  }

  ghost predicate IsRunner(t: Template, name: string) {
    exists i :: 0 <= i < |t.runners| && t.runners[i].name == name
  }

  function Replicas(r: RunnerSpec): int {
    if r.replicas.Some? then r.replicas.value else 1
  }

  const DEFAULT_RUN_TIMEOUT: int := 600 * SECOND

  function Timeout(t: Template): int {
    if t.timeout.Some? then t.timeout.value else DEFAULT_RUN_TIMEOUT
  }

  datatype CheckResult = CheckResult(
    name: string,
    passed: bool,
    observed: Outcome,
    attempts: int,
    message: string,
    duration: Option<int>)

  datatype PodResult = PodResult(nodeName: string, checks: seq<CheckResult>)

  /** status.runners as the API returns it: two nested lists, each keyed by name. */
  datatype PodEntry = PodEntry(podName: string, result: PodResult)
  datatype RunnerStatus = RunnerStatus(name: string, pods: seq<PodEntry>)

  /** The same two lists as the keyed maps they denote. */
  type Entries = map<string, map<string, PodResult>>

  function PodsOf(entries: Entries, runner: string): map<string, PodResult> {
    if runner in entries then entries[runner] else map[]
  }

  datatype RunPhase = Unset | Pending | Running | Succeeded | Failed | Error

  predicate IsTerminal(p: RunPhase) {
    p == Succeeded || p == Failed || p == Error
  }

  /** A finished run may change phase, but not become unfinished. */
  predicate KeepsFinished(before: RunPhase, after: RunPhase) {
    IsTerminal(before) ==> IsTerminal(after)
  }

  datatype Summary = Summary(total: int, passed: int, failed: int)

  datatype ConditionType = Completed | DeadlineExceeded | ServiceAccountMissing
  datatype Reason = ServiceAccountNotFound | TimedOut | RunnerError | Finished(phase: RunPhase)

  /** The status fields the CheckRun controller owns; every condition it sets is True. */
  datatype ControllerStatus = ControllerStatus(
    phase: RunPhase,
    startTime: Option<int>,
    completionTime: Option<int>,
    summary: Option<Summary>,
    conditions: map<ConditionType, Reason>)

  const INITIAL_STATUS := ControllerStatus(Unset, None, None, None, map[])

  datatype JobStatus = JobStatus(complete: bool, failed: bool)

  const FRESH_JOB := JobStatus(false, false)
}
