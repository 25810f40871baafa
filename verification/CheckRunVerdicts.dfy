/** What a stored verdict says about the results on the server, then and ever after. */
module CheckRunVerdicts {
  import opened Types
  import opened RunnerPod
  import opened Aggregation
  import opened CheckRunController
  import opened CheckRunProtocol
  import opened CheckRunStatuses

  // ------------------------------------------------- the pass behind a verdict

  /** The status that `hist` shows at moment `n` was stored by a pass that had read the run
      as of `m`, had seen every Job complete, and had decided from the entries it read. */
  ghost predicate ReadBy(t: Template, tr: seq<Sys>, hist: seq<World>, n: nat, m: nat)
    requires n < |hist|
  {
    exists i: nat :: i + 1 < |tr| && AppliedBy(t, tr[i], tr[i + 1], hist, n) && ConcludedFrom(t, tr[i], m)
  }

  ghost predicate ConcludedFrom(t: Template, s: Sys, m: nat) {
    && s.pass.Active? && s.pass.at == m < |s.hist|
    && s.pass.account == Present && AllJobsComplete(s.pass.seen)
    && DecisionOf(t, s) == Verdict(t, s.hist[m].entries)
  }

  /** Every stored verdict goes back to such a pass. */
  lemma VerdictHasItsPass(t: Template, tr: seq<Sys>, j: nat, n: nat) returns (m: nat)
    requires ValidTemplate(t) && Behavior(t, tr) && j < |tr| && n < |tr[j].hist| && Decided(tr[j].hist[n])
    ensures m < n && ReadBy(t, tr, tr[j].hist, n, m)
    ensures Complete(t, tr[j].hist[m].entries) && Verdict(t, tr[j].hist[m].entries).phase == tr[j].hist[n].ctl.phase
    ensures tr[j].hist[n].ctl.summary == Some(SummaryOf(t, tr[j].hist[m].entries))
  {
    hide GoodWorld, AllGood, Monotone, Sound, Locked, Stable, SeesTruly, Complete, Verdict, SummaryOf;
    hide Decide, StatusFor, DecisionOf, Behavior, ValidTemplate;
    var i := StatusHasItsPass(t, tr, j, n);
    var s := tr[i];
    m := s.pass.at;
    Invariant(t, tr, i);
    ApplyDecides(t, s);
    OnlyVerdictsDecide(t, s);
    assert ConcludedFrom(t, s, m);
    assert tr[j].hist[m] == s.hist[m];
  }

  /** A verdict is only applied by a pass that saw every Job complete. */
  lemma OnlyVerdictsDecide(t: Template, s: Sys)
    requires |s.hist| > 0 && Enabled(t, s, ApplyStatus) && Decided(Now(Next(t, s, ApplyStatus)))
    ensures s.pass.account == Present && AllJobsComplete(s.pass.seen)
    ensures DecisionOf(t, s) == Verdict(t, s.hist[s.pass.at].entries)
  {
    hide Complete, SummaryOf, AllJobsComplete, SomeJobFailed, PastDeadline;
  }

  // ----------------------------------------------------------- then and after

  /** Everything that landed between the two moments held. */
  ghost predicate LateEntriesHold(t: Template, read: World, later: World) {
    forall r, p :: IsRunner(t, r) && p in PodsOf(later.entries, r) && p !in PodsOf(read.entries, r) ==> PodHolds(t, later, r, p)
  }

  /** As many entries per runner as replicas, no more. */
  predicate ExactlyReplicas(t: Template, w: World) {
    forall i :: 0 <= i < |t.runners| ==> |PodsOf(w.entries, t.runners[i].name)| == Replicas(t.runners[i])
  }

  lemma HeldEntryStaysHeld(t: Template, a: World, b: World, r: string, p: string)
    requires ValidTemplate(t) && GoodWorld(t, a) && GoodWorld(t, b) && Grows(a, b) && p in PodsOf(a.entries, r)
    ensures p in PodsOf(b.entries, r) && (PodHolds(t, a, r, p) <==> PodHolds(t, b, r, p))
  {
    hide GoodWorld, PodHolds, ChecksName, PassedIn, ValidTemplate;
    EntryTellsTruth(t, a, r, p);
    EntryTellsTruth(t, b, r, p);
  }

  /** From a moment at which everything held to a later one: it still holds exactly when
      the entries that landed in between held. */
  lemma HoldsLaterExactly(t: Template, a: World, b: World)
    requires ValidTemplate(t) && GoodWorld(t, a) && GoodWorld(t, b) && Grows(a, b) && EverythingHolds(t, a)
    ensures EverythingHolds(t, b) <==> LateEntriesHold(t, a, b)
  {
    hide GoodWorld, PodHolds, Complete, ValidTemplate, Grows;
    assert EntriesGrow(a.entries, b.entries) by { GrownEntries(a, b); }
    VerdictMonotone(t, a.entries, b.entries);
    if LateEntriesHold(t, a, b) {
      forall r, p | IsRunner(t, r) && p in PodsOf(b.entries, r)
        ensures PodHolds(t, b, r, p)
      {
        if p in PodsOf(a.entries, r) {
          HeldEntryStaysHeld(t, a, b, r, p);
        }
      }
    }
  }

  lemma GrownEntries(a: World, b: World)
    requires Grows(a, b)
    ensures EntriesGrow(a.entries, b.entries)
  {
  }

  lemma SameSize<T>(a: set<T>, b: set<T>)
    requires a <= b && |a| >= |b|
    ensures a == b
  {
    if x :| x in b && x !in a {
      SubsetSize(a + {x}, b);
    }
  }

  /** Complete results that later number exactly the replicas have not changed. */
  lemma NoLateEntries(t: Template, a: World, b: World)
    requires Complete(t, a.entries) && EntriesGrow(a.entries, b.entries) && ExactlyReplicas(t, b)
    ensures LateEntriesHold(t, a, b)
  {
    hide PodHolds;
    forall r, p | IsRunner(t, r) && p in PodsOf(b.entries, r)
      ensures p in PodsOf(a.entries, r)
    {
      var i :| 0 <= i < |t.runners| && t.runners[i].name == r;
      assert RunnerComplete(t.runners[i], a.entries);
      SameSize(PodsOf(a.entries, r).Keys, PodsOf(b.entries, r).Keys);
    }
  }

  /** A stored verdict, at the moment it was stored and at every later one: results are
      complete; after Failed some reported check had not held. Everything had held in what
      the pass read before it stored Succeeded, and everything reported holds since if and
      only if whatever landed after that read held; in particular with no more entries
      than replicas. */
  lemma EndToEndVerdict(t: Template, tr: seq<Sys>, j: nat, n: nat, k: nat) returns (m: nat)
    requires ValidTemplate(t) && Behavior(t, tr) && j < |tr| && n <= k < |tr[j].hist| && Decided(tr[j].hist[n])
    ensures m < n && ReadBy(t, tr, tr[j].hist, n, m)
    ensures Complete(t, tr[j].hist[k].entries)
    ensures tr[j].hist[n].ctl.phase == Failed ==> SomethingMissed(t, tr[j].hist[k])
    ensures tr[j].hist[n].ctl.phase == Succeeded ==>
      && EverythingHolds(t, tr[j].hist[m])
      && (EverythingHolds(t, tr[j].hist[k]) <==> LateEntriesHold(t, tr[j].hist[m], tr[j].hist[k]))
      && (ExactlyReplicas(t, tr[j].hist[k]) ==> EverythingHolds(t, tr[j].hist[k]))
  {
    hide GoodWorld, EverythingHolds, SomethingMissed, Complete, Verdict, SummaryOf, ReadBy, LateEntriesHold, ExactlyReplicas, Behavior, Sound, Locked, Stable, SeesTruly, SomeFails;
    m := VerdictHasItsPass(t, tr, j, n);
    Invariant(t, tr, j);
    var a, b := tr[j].hist[m], tr[j].hist[k];
    assert Grows(a, b);
    GrownEntries(a, b);
    VerdictMonotone(t, a.entries, b.entries);
    VerdictTellsTruth(t, a);
    VerdictTellsTruth(t, b);
    VerdictPhase(t, a.entries);
    VerdictPhase(t, b.entries);
    if tr[j].hist[n].ctl.phase == Succeeded {
      HoldsLaterExactly(t, a, b);
      if ExactlyReplicas(t, b) { NoLateEntries(t, a, b); }
    }
  }

  lemma VerdictPhase(t: Template, entries: Entries)
    ensures Verdict(t, entries).Finish?
    ensures Verdict(t, entries).phase == if SomeFails(t, entries) then Failed else Succeeded
  {
    FailedCountsFailures(t, entries);
  }

  // ----------------------------------------------- in terms of what was observed

  /** Pod `p` reported on the check, knew its type, and made as last observation what it
      reported: a failure exactly if the check expects one. */
  ghost predicate ObservedAsWanted(w: World, r: string, p: string, c: CheckSpec) {
    && p in PodsOf(w.entries, r) && PodId(r, p) in w.evidence
    && var body, found := PodsOf(w.entries, r)[p], w.evidence[PodId(r, p)];
       exists k: nat :: k < |body.checks| && k < |found| && body.checks[k].name == c.name && WantedAt(body.checks[k], found[k], c)
  }

  predicate WantedAt(res: CheckResult, ev: Evidence, c: CheckSpec) {
    && ev.known && |ev.seen| > 0 && res.observed == ev.seen[|ev.seen| - 1]
    && (res.observed == Failure <==> c.expectation == Some(Failure))
  }

  /** Pod `p`'s entry shows each check assigned to its runner observed as wanted. */
  ghost predicate PodObserved(t: Template, w: World, r: string, p: string) {
    forall j :: 0 <= j < |t.checks| && (t.checks[j].runners == [] || r in t.checks[j].runners) ==>
      ObservedAsWanted(w, r, p, t.checks[j])
  }

  lemma PodHoldsObserved(t: Template, w: World, r: string, p: string)
    requires ValidTemplate(t) && GoodWorld(t, w) && p in PodsOf(w.entries, r)
    ensures PodHolds(t, w, r, p) <==> PodObserved(t, w, r, p)
  {
    assert Backed(t, w, r, p);
    FilterKeepsNamesUnique(t.checks, r);
    var body, mine, found := PodsOf(w.entries, r)[p], Filter(t.checks, r), w.evidence[PodId(r, p)];
    forall c: nat | c < |mine|
      ensures body.checks[c].name == mine[c].name && (Holds(mine[c], found[c]) <==> WantedAt(body.checks[c], found[c], mine[c]))
    {
      assert Executed(mine[c], found[c], body.checks[c]);
    }
    hide Executed, Holds, WantedAt, Filter, ValidTemplate, GoodWorld;
    if PodHolds(t, w, r, p) {
      forall j | 0 <= j < |t.checks| && (t.checks[j].runners == [] || r in t.checks[j].runners)
        ensures ObservedAsWanted(w, r, p, t.checks[j])
      {
        var k: nat :| k < |mine| && mine[k] == t.checks[j];
        assert body.checks[k].name == t.checks[j].name && WantedAt(body.checks[k], found[k], t.checks[j]);
      }
    }
    if PodObserved(t, w, r, p) {
      forall c: nat | c < |mine|
        ensures Holds(mine[c], found[c])
      {
        assert mine[c] in t.checks;
        var j :| 0 <= j < |t.checks| && t.checks[j] == mine[c];
        assert ObservedAsWanted(w, r, p, t.checks[j]);
        var k: nat :| k < |body.checks| && k < |found| && body.checks[k].name == mine[c].name
                      && WantedAt(body.checks[k], found[k], mine[c]);
        assert mine[k].name == mine[c].name;
        assert k == c;
      }
    }
  }

  /** So does every entry of every runner. */
  ghost predicate EverythingObserved(t: Template, w: World) {
    forall i, p :: 0 <= i < |t.runners| && p in PodsOf(w.entries, t.runners[i].name) ==> PodObserved(t, w, t.runners[i].name, p)
  }

  /** That everything holds means just that, over complete results. */
  lemma HoldsMeansObserved(t: Template, w: World)
    requires ValidTemplate(t) && GoodWorld(t, w)
    ensures EverythingHolds(t, w) <==> Complete(t, w.entries) && EverythingObserved(t, w)
  {
    hide GoodWorld, ValidTemplate, PodHolds, PodObserved, Complete;
    forall r, p | p in PodsOf(w.entries, r)
      ensures PodHolds(t, w, r, p) <==> PodObserved(t, w, r, p)
    {
      PodHoldsObserved(t, w, r, p);
    }
    if EverythingHolds(t, w) {
      forall i, p | 0 <= i < |t.runners| && p in PodsOf(w.entries, t.runners[i].name)
        ensures PodObserved(t, w, t.runners[i].name, p)
      {
        RunnerNamed(t, i);
        assert PodHolds(t, w, t.runners[i].name, p);
      }
    }
  }

  /** Succeeded is only ever stored from complete results in which every pod of every runner
      last observed, for each check assigned to it, a failure exactly where one is expected;
      Failed only from complete results in which some pod did not. */
  lemma VerdictAsObserved(t: Template, tr: seq<Sys>, j: nat, n: nat) returns (m: nat)
    requires ValidTemplate(t) && Behavior(t, tr) && j < |tr| && n < |tr[j].hist| && Decided(tr[j].hist[n])
    ensures m < n && ReadBy(t, tr, tr[j].hist, n, m) && Complete(t, tr[j].hist[m].entries)
    ensures tr[j].hist[n].ctl.phase == Succeeded <==> EverythingObserved(t, tr[j].hist[m])
    ensures tr[j].hist[n].ctl.phase == Failed <==> !EverythingObserved(t, tr[j].hist[m])
  {
    hide GoodWorld, Complete, Verdict, SummaryOf, ReadBy, Behavior, Sound, Locked, Stable, SeesTruly, Monotone;
    hide EverythingObserved, EverythingHolds, SomethingMissed, ValidTemplate;
    m := VerdictHasItsPass(t, tr, j, n);
    Invariant(t, tr, j);
    VerdictTellsTruth(t, tr[j].hist[m]);
    HoldsMeansObserved(t, tr[j].hist[m]);
  }
}
