/** A history in which a run is stored as Succeeded beside a failing entry. */
module CheckRunLateReport {
  import opened Types
  import opened RunnerPod
  import opened Aggregation
  import opened CheckRunController
  import opened CheckRunProtocol
  import opened CheckRunTheorems
  import opened CheckRunVerdicts
  import RunnerProcess

  /** One runner with one pod and one check. */
  const SINGLE := Template([RunnerSpec("r", None)], [CheckSpec("c", [], TCP, None, None)], None)

  const A := PodId("r", "a")
  const B := PodId("r", "b")
  const SEEN_A := [Evidence(true, [Success])]
  const SEEN_B := [Evidence(true, [Failure])]
  const BODY_A := PodResult("", [CheckResult("c", true, Success, 1, "", Some(0))])
  const BODY_B := PodResult("", [CheckResult("c", false, Failure, 1, "", Some(0))])

  /** The server moment by moment: pod a of the Job reports a pass and crashes; its
      replacement, pod b, reports a failure and exits, and the Job completes. */
  ghost function Moment(k: nat): World {
    if k == 0 then World(0, true, INITIAL_STATUS, map[], map[], map[], map[])
    else
      var w := Moment(k - 1);
      if k == 1 then w.(jobs := WithJob(w.jobs, "r"))
      else if k == 2 then w.(ctl := StatusFor(Continue, INITIAL_STATUS, 0))
      else if k == 3 then WorldNext(SINGLE, w, PodStart(A))
      else if k == 4 then WorldNext(SINGLE, w, PodReport(A, BODY_A, SEEN_A))
      else if k == 5 then WorldNext(SINGLE, w, PodCrash(A))
      else if k == 6 then WorldNext(SINGLE, w, PodStart(B))
      else if k == 7 then WorldNext(SINGLE, w, PodReport(B, BODY_B, SEEN_B))
      else if k == 8 then WorldNext(SINGLE, w, PodExit(B))
      else if k == 9 then WorldNext(SINGLE, w, JobComplete(0))
      else w.(ctl := StatusFor(Verdict(SINGLE, Moment(6).entries), Moment(6).ctl, 0))
  }

  ghost function Moments(n: nat): (hist: seq<World>)
    ensures |hist| == n && forall k :: 0 <= k < n ==> hist[k] == Moment(k)
  {
    seq(n, k requires 0 <= k < n => Moment(k))
  }

  lemma OneMoment(n: nat, w: World)
    requires w == Moment(n)
    ensures Moments(n) + [w] == Moments(n + 1)
  {
  }

  /** The system between the moments: `pass` in flight, caches at `at`. */
  ghost function At(n: nat, pass: Pass, runAt: nat, jobsAt: nat): Sys {
    Sys(Moments(n), pass, runAt, jobsAt)
  }

  const RUNNING := StatusFor(Continue, INITIAL_STATUS, 0)
  const FRESH_JOBS: map<string, JobStatus> := map["r" := FRESH_JOB]
  const DONE_JOBS: map<string, JobStatus> := map["r" := JobStatus(true, false)]

  lemma SetupMoments()
    ensures Moment(1) == World(0, true, INITIAL_STATUS, map[], FRESH_JOBS, map[], map[])
    ensures Moment(2) == World(0, true, RUNNING, map[], FRESH_JOBS, map[], map[])
    ensures Moment(3) == World(0, true, RUNNING, map[], FRESH_JOBS, map[A := Starting], map[])
  {
    assert WithJob(map[], "r") == FRESH_JOBS;
    assert Moment(0) == World(0, true, INITIAL_STATUS, map[], map[], map[], map[]);
  }

  lemma ReportMoments()
    ensures Moment(4) == World(0, true, RUNNING, map["r" := map["a" := BODY_A]], FRESH_JOBS,
                               map[A := Reported], map[A := SEEN_A])
    ensures Moment(5) == Moment(4).(pods := map[A := Crashed])
    ensures Moment(6) == Moment(4).(pods := map[A := Crashed, B := Starting])
  {
    SetupMoments();
    assert Moment(3).pods[A := Reported] == map[A := Reported];
    assert Moment(4).pods[A := Crashed] == map[A := Crashed];
    assert Moment(5).pods[B := Starting] == map[A := Crashed, B := Starting];
  }

  lemma MomentSeven()
    ensures Moment(7) == World(0, true, RUNNING, map["r" := map["a" := BODY_A, "b" := BODY_B]], FRESH_JOBS,
                               map[A := Crashed, B := Reported], map[A := SEEN_A, B := SEEN_B])
  {
    hide Moment;
    ReportMoments();
    LateSteps();
    var w := Moment(6);
    assert w.entries["r" := map["a" := BODY_A]["b" := BODY_B]] == map["r" := map["a" := BODY_A, "b" := BODY_B]];
    assert w.pods[B := Reported] == map[A := Crashed, B := Reported];
  }

  lemma LateMoments()
    ensures Moment(8) == World(0, true, RUNNING, map["r" := map["a" := BODY_A, "b" := BODY_B]], FRESH_JOBS,
                               map[A := Crashed, B := ExitedZero], map[A := SEEN_A, B := SEEN_B])
    ensures Moment(9) == Moment(8).(jobs := DONE_JOBS)
  {
    hide Moment;
    MomentSeven();
    LateSteps();
    assert Moment(7).pods[B := ExitedZero] == map[A := Crashed, B := ExitedZero];
    assert FRESH_JOBS["r" := JobStatus(true, false)] == DONE_JOBS;
  }

  lemma LateSteps()
    ensures Moment(7) == WorldNext(SINGLE, Moment(6), PodReport(B, BODY_B, SEEN_B))
    ensures Moment(8) == WorldNext(SINGLE, Moment(7), PodExit(B))
    ensures Moment(9) == WorldNext(SINGLE, Moment(8), JobComplete(0))
  {
    hide WorldNext;
  }

  lemma SingleIsValid()
    ensures ValidTemplate(SINGLE) && Filter(SINGLE.checks, "r") == SINGLE.checks
  {
    assert SINGLE.checks[..0] == [];
  }

  lemma ReportsAreGenuine()
    ensures RunnerProcess.GenuineResult(SINGLE.checks, "r", SEEN_A, BODY_A)
    ensures RunnerProcess.GenuineResult(SINGLE.checks, "r", SEEN_B, BODY_B)
  {
    hide Filter, ValidTemplate;
    SingleIsValid();
    assert Executed(SINGLE.checks[0], SEEN_A[0], BODY_A.checks[0]);
    assert Executed(SINGLE.checks[0], SEEN_B[0], BODY_B.checks[0]);
  }

  lemma FirstPassSteps()
    ensures Initial(At(1, Idle, 0, 0))
    ensures FreshStep(SINGLE, At(1, Idle, 0, 0), At(1, Active(0, 0, Unchecked, 0, map[]), 0, 0))
    ensures FreshStep(SINGLE, At(1, Active(0, 0, Unchecked, 0, map[]), 0, 0), At(1, Active(0, 0, Present, 0, map[]), 0, 0))
    ensures FreshStep(SINGLE, At(1, Active(0, 0, Present, 0, map[]), 0, 0), At(2, Active(0, 0, Present, 1, FRESH_JOBS), 0, 0))
  {
    var s := At(1, Idle, 0, 0);
    assert Enabled(SINGLE, s, Begin(0)) && Next(SINGLE, s, Begin(0)) == At(1, Active(0, 0, Unchecked, 0, map[]), 0, 0);
    var s1 := At(1, Active(0, 0, Unchecked, 0, map[]), 0, 0);
    assert Enabled(SINGLE, s1, CheckAccount) && Next(SINGLE, s1, CheckAccount) == At(1, Active(0, 0, Present, 0, map[]), 0, 0);
    var s2 := At(1, Active(0, 0, Present, 0, map[]), 0, 0);
    OneMoment(1, Moment(1));
    assert Enabled(SINGLE, s2, MakeJob(0)) && Next(SINGLE, s2, MakeJob(0)) == At(2, Active(0, 0, Present, 1, FRESH_JOBS), 0, 0);
  }

  lemma FirstPassApplies()
    ensures FreshStep(SINGLE, At(2, Active(0, 0, Present, 1, FRESH_JOBS), 0, 0), At(3, Idle, 0, 0))
  {
    SetupMoments();
    var s := At(2, Active(0, 0, Present, 1, FRESH_JOBS), 0, 0);
    assert "r" in FRESH_JOBS && !FRESH_JOBS["r"].complete;
    assert DecisionOf(SINGLE, s) == Continue;
    OneMoment(2, Moment(2));
    assert Enabled(SINGLE, s, ApplyStatus) && Next(SINGLE, s, ApplyStatus) == At(3, Idle, 0, 0);
  }

  lemma EnvironmentSteps(n: nat, pass: Pass, runAt: nat, jobsAt: nat, e: WorldEvent)
    requires n > 0 && WorldEnabled(SINGLE, Moment(n - 1), e) && Moment(n) == WorldNext(SINGLE, Moment(n - 1), e)
    ensures FreshStep(SINGLE, At(n, pass, runAt, jobsAt), At(n + 1, pass, runAt, jobsAt))
  {
    hide WorldEnabled, WorldNext, Moment;
    var s := At(n, pass, runAt, jobsAt);
    assert Enabled(SINGLE, s, Environment(e));
    OneMoment(n, Moment(n));
    assert Next(SINGLE, s, Environment(e)) == At(n + 1, pass, runAt, jobsAt);
  }

  lemma PodSteps(k: nat)
    requires 3 <= k <= 6
    ensures FreshStep(SINGLE, At(k, Idle, 0, 0), At(k + 1, Idle, 0, 0))
  {
    hide RunnerProcess.GenuineResult, GoodWorld, Filter;
    SetupMoments();
    ReportMoments();
    ReportsAreGenuine();
    var e := if k == 3 then PodStart(A) else if k == 4 then PodReport(A, BODY_A, SEEN_A) else if k == 5 then PodCrash(A) else PodStart(B);
    EnvironmentSteps(k, Idle, 0, 0, e);
  }

  const READING := Active(6, 0, Present, 0, map[])

  lemma LateEnabled(k: nat)
    requires 7 <= k <= 9
    ensures var e := if k == 7 then PodReport(B, BODY_B, SEEN_B) else if k == 8 then PodExit(B) else JobComplete(0);
      WorldEnabled(SINGLE, Moment(k - 1), e)
  {
    hide Moment, RunnerProcess.GenuineResult, Filter;
    ReportMoments();
    MomentSeven();
    LateMoments();
    ReportsAreGenuine();
    if k == 9 {
      assert "b" in Exited(Moment(8), "r") by { assert B in Moment(8).pods && B.pod == "b"; }
    }
  }

  lemma LatePodSteps(k: nat)
    requires 7 <= k <= 9
    ensures FreshStep(SINGLE, At(k, READING, 6, 0), At(k + 1, READING, 6, 0))
  {
    hide Moment, WorldEnabled, WorldNext;
    LateEnabled(k);
    LateSteps();
    var e := if k == 7 then PodReport(B, BODY_B, SEEN_B) else if k == 8 then PodExit(B) else JobComplete(0);
    EnvironmentSteps(k, READING, 6, 0, e);
  }

  lemma SecondPassSteps()
    ensures FreshStep(SINGLE, At(7, Idle, 0, 0), At(7, READING, 6, 0))
    ensures FreshStep(SINGLE, At(10, READING, 6, 0), At(10, Active(6, 0, Present, 1, DONE_JOBS), 6, 9))
  {
    hide Moment, WorldEnabled, WorldNext;
    ReportMoments();
    LateMoments();
    var s := At(7, Idle, 0, 0);
    assert Enabled(SINGLE, s, Begin(6)) && Next(SINGLE, s, Begin(6)) == At(7, READING, 6, 0);
    var s1 := At(10, READING, 6, 0);
    assert Enabled(SINGLE, s1, SeeJob(9)) && Next(SINGLE, s1, SeeJob(9)) == At(10, Active(6, 0, Present, 1, DONE_JOBS), 6, 9);
  }

  lemma OnlyPair(p: Pair)
    requires p in Pairs(SINGLE)
    ensures p == Pair("r", "c")
  {
    hide ValidTemplate;
    SingleIsValid();
    PairsUpToMembers(SINGLE, 1);
  }

  /** What the second pass read was a complete, passing result. */
  lemma ReadPasses()
    ensures Complete(SINGLE, Moment(6).entries) && Verdict(SINGLE, Moment(6).entries).phase == Succeeded
  {
    hide Moment, ValidTemplate, Pairs, Filter, Verdict;
    ReportMoments();
    VerdictPhase(SINGLE, Moment(6).entries);
    assert PassedIn(BODY_A, "c");
    forall p | p in Pairs(SINGLE)
      ensures PairPassed(Moment(6).entries, p)
    {
      OnlyPair(p);
    }
  }

  lemma LastStep()
    ensures Moment(10) == Moment(9).(ctl := StatusFor(Verdict(SINGLE, Moment(6).entries), Moment(6).ctl, 0))
  {
    hide WorldNext, Verdict, StatusFor;
  }

  lemma SecondPassApplies()
    ensures FreshStep(SINGLE, At(10, Active(6, 0, Present, 1, DONE_JOBS), 6, 9), At(11, Idle, 6, 9))
    ensures Moment(10).ctl.phase == Succeeded && Moment(10).entries == Moment(9).entries
  {
    hide Moment, Verdict, Complete, ValidTemplate, WorldEnabled, WorldNext;
    ReadPasses();
    ReportMoments();
    LateMoments();
    LastStep();
    var s := At(10, Active(6, 0, Present, 1, DONE_JOBS), 6, 9);
    assert DecisionOf(SINGLE, s) == Verdict(SINGLE, Moment(6).entries);
    assert Verdict(SINGLE, Moment(6).entries).Finish? by { VerdictPhase(SINGLE, Moment(6).entries); }
    OneMoment(10, Moment(10));
    assert Enabled(SINGLE, s, ApplyStatus) && Next(SINGLE, s, ApplyStatus) == At(11, Idle, 6, 9);
  }

  /** Even with current run reads, Succeeded can be stored while the server holds a
      failing entry: the run is read before the Jobs, so a report that lands in between
      goes unseen although the Job it completes does not. */
  lemma SucceededBesideFailure() returns (t: Template, tr: seq<Sys>)
    ensures ValidTemplate(t) && FreshBehavior(t, tr)
    ensures var s := tr[|tr| - 1];
      && |s.hist| > 0 && Now(s).ctl.phase == Succeeded
      && Complete(t, Now(s).entries) && !EverythingHolds(t, Now(s))
  {
    hide Moment, FreshStep, Initial, ValidTemplate, EverythingHolds, Complete;
    t := SINGLE;
    SingleIsValid();
    FirstPassSteps();
    FirstPassApplies();
    SecondPassSteps();
    SecondPassApplies();
    PodSteps(3);
    PodSteps(4);
    PodSteps(5);
    PodSteps(6);
    LatePodSteps(7);
    LatePodSteps(8);
    LatePodSteps(9);
    tr := [At(1, Idle, 0, 0), At(1, Active(0, 0, Unchecked, 0, map[]), 0, 0), At(1, Active(0, 0, Present, 0, map[]), 0, 0),
           At(2, Active(0, 0, Present, 1, FRESH_JOBS), 0, 0), At(3, Idle, 0, 0), At(4, Idle, 0, 0), At(5, Idle, 0, 0),
           At(6, Idle, 0, 0), At(7, Idle, 0, 0), At(7, READING, 6, 0), At(8, READING, 6, 0), At(9, READING, 6, 0),
           At(10, READING, 6, 0), At(10, Active(6, 0, Present, 1, DONE_JOBS), 6, 9), At(11, Idle, 6, 9)];
    FailureStands();
  }

  lemma FailureStands()
    ensures Complete(SINGLE, Moment(10).entries) && !EverythingHolds(SINGLE, Moment(10))
  {
    hide Filter, ValidTemplate;
    SecondPassApplies();
    LateMoments();
    SingleIsValid();
    var w := Moment(10);
    assert "b" in PodsOf(w.entries, "r") && w.evidence[B] == SEEN_B by { assert w.evidence == Moment(9).evidence; }
    assert !Holds(SINGLE.checks[0], SEEN_B[0]);
    assert !PodHolds(SINGLE, w, "r", "b");
    assert IsRunner(SINGLE, "r") by { assert SINGLE.runners[0].name == "r"; }
  }
}
