/** What a lagging run cache can undo: concrete histories from Error back to Running. */
module CheckRunStaleReads {
  import opened Types
  import opened Aggregation
  import opened CheckRunController
  import opened CheckRunProtocol
  import opened CheckRunFinality

  /** A suite with one runner and nothing to check. */
  const LONE := Template([RunnerSpec("default", None)], [], None)

  /** The path goes on with the clock moving to `to`. */
  lemma Waited(t: Template, tr: seq<Sys>, to: int) returns (longer: seq<Sys>)
    requires ValidTemplate(t) && Path(t, tr) && Inv(t, tr[0]) && |Last(tr).hist| > 0 && to >= Now(Last(tr)).clock
    ensures PathFrom(t, tr[0], longer)
    ensures var s, s' := Last(tr), Last(longer);
      && s'.hist == s.hist + [Now(s).(clock := to)] && s'.pass == s.pass && s'.runAt == s.runAt && s'.jobsAt == s.jobsAt
  {
    hide Inv, ValidTemplate, Path;
    longer := OneMoreStep(t, tr, Environment(Tick(to)));
  }

  /** It goes on with a whole pass that reads the run as of `at`. */
  lemma Passed(t: Template, tr: seq<Sys>, at: nat) returns (longer: seq<Sys>, seen: map<string, JobStatus>)
    requires ValidTemplate(t) && Path(t, tr) && Inv(t, tr[0])
    requires var s := Last(tr); s.pass.Idle? && s.runAt <= at < |s.hist| && !IsTerminal(s.hist[at].ctl.phase)
    ensures PathFrom(t, tr[0], longer)
    ensures var s, s' := Last(tr), Last(longer);
      && s'.pass.Idle? && s'.runAt == at && s'.jobsAt == s.jobsAt < |s.hist| && s.hist < s'.hist && Now(s').clock == Now(s).clock
      && SeenIn(t, s.hist[s.jobsAt].jobs, seen, |t.runners|)
      && Now(s').ctl == StatusFor(Decide(t, s.hist[at].ctl, s.hist[at].entries, seen, Now(s).clock), s.hist[at].ctl, Now(s).clock)
  {
    hide Inv, ValidTemplate, Path, Decide, StatusFor, SeenIn;
    PathKeepsInv(t, tr);
    var rest;
    rest, seen := RunPass(t, Last(tr), at);
    longer := Joined(t, tr, rest);
  }

  /** With nothing seen of its one Job, the run keeps going until its deadline. */
  lemma LoneDecides(ctl: ControllerStatus, entries: Entries, seen: map<string, JobStatus>, now: int)
    requires SeenIn(LONE, map[], seen, 1)
    ensures Decide(LONE, ctl, entries, seen, now) == if PastDeadline(LONE, ctl, now) then PAST_DEADLINE else Continue
  {
    hide Complete, PastDeadline;
    assert LONE.runners[0].name in seen && seen["default"] == FRESH_JOB;
    if r :| r in seen && seen[r].failed {
      assert seen[r] == Seen(map[], r);
    }
  }

  function First(accountPresent: bool): Sys {
    Sys([World(0, accountPresent, INITIAL_STATUS, map[], map[], map[], map[])], Idle, 0, 0)
  }

  lemma FirstIsGood(accountPresent: bool)
    ensures ValidTemplate(LONE) && Initial(First(accountPresent)) && Inv(LONE, First(accountPresent))
  {
    InvInitial(LONE, First(accountPresent));
  }

  lemma PathIsBehavior(t: Template, tr: seq<Sys>)
    requires Path(t, tr) && Initial(tr[0])
    ensures Behavior(t, tr)
  {
    hide Initial;
  }

  /** A missing ServiceAccount is read past the caches: when the run cache lags behind
      the Error it led to, a later pass finds the account and puts the run back to Running. */
  lemma ErrorCanBeWithdrawn() returns (t: Template, tr: seq<Sys>, n: nat, m: nat)
    ensures ValidTemplate(t) && |tr| > 0 && Behavior(t, tr)
    ensures n < m < |tr[|tr| - 1].hist|
    ensures tr[|tr| - 1].hist[n].ctl.phase == Error && ServiceAccountMissing in tr[|tr| - 1].hist[n].ctl.conditions
    ensures tr[|tr| - 1].hist[m].ctl.phase == Running
  {
    hide Inv, ValidTemplate, Path, SeenIn, Decide, Initial;
    t := LONE;
    FirstIsGood(false);
    OneStatePath(t, First(false));
    tr := OneMoreStep(t, [First(false)], Begin(0));
    tr := OneMoreStep(t, tr, CheckAccount);
    tr := OneMoreStep(t, tr, ApplyStatus);
    n := 1;
    var seen;
    tr, seen := Passed(t, tr, 0);
    LoneDecides(INITIAL_STATUS, map[], seen, 0);
    m := |Last(tr).hist| - 1;
    PathIsBehavior(t, tr);
  }

  /** Two passes start the run, at 0s and, from a stale read, at 50s; a third finds the
      first start past the deadline and stores Error; a fourth reads the second start. */
  lemma DeadlineErrorCanBeWithdrawn() returns (t: Template, tr: seq<Sys>, n: nat, m: nat)
    ensures ValidTemplate(t) && |tr| > 0 && Behavior(t, tr)
    ensures n < m < |tr[|tr| - 1].hist|
    ensures tr[|tr| - 1].hist[n].ctl.phase == Error && DeadlineExceeded in tr[|tr| - 1].hist[n].ctl.conditions
    ensures tr[|tr| - 1].hist[m].ctl.phase == Running
  {
    hide Inv, ValidTemplate, Path, SeenIn, Decide, Initial;
    t := LONE;
    FirstIsGood(true);
    OneStatePath(t, First(true));
    var seen;
    tr, seen := Passed(t, [First(true)], 0);
    LoneDecides(INITIAL_STATUS, map[], seen, 0);
    var first := |Last(tr).hist| - 1;
    tr := Waited(t, tr, 50 * SECOND);
    tr, seen := Passed(t, tr, 0);
    LoneDecides(INITIAL_STATUS, map[], seen, 50 * SECOND);
    var second := |Last(tr).hist| - 1;
    tr := Waited(t, tr, 601 * SECOND);
    tr, seen := Passed(t, tr, first);
    LoneDecides(Last(tr).hist[first].ctl, Last(tr).hist[first].entries, seen, 601 * SECOND);
    n := |Last(tr).hist| - 1;
    tr, seen := Passed(t, tr, second);
    LoneDecides(Last(tr).hist[second].ctl, Last(tr).hist[second].entries, seen, 601 * SECOND);
    m := |Last(tr).hist| - 1;
    PathIsBehavior(t, tr);
  }
}
