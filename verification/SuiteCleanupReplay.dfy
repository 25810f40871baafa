/** Replays of a whole pass, history cleanup included. */
module SuiteCleanupReplay {
  import opened CronScan
  import opened Aggregation
  import opened SuiteController
  import opened SuitePass
  import opened SuiteReplay

  // --------------------------------------------- a cleanup begun and resumed

  /** One kind: after `d` deletions, a fresh listing and a full cleanup of what is left,
      exactly the newest min(n, limit) runs remain, as if nothing had gone wrong. */
  lemma KindResumed(runs: map<string, Run>, mid: map<string, Run>, after: map<string, Run>, k: Kind, limit: nat,
                    listed: seq<Listed>, victims: seq<Listed>, d: nat, listed': seq<Listed>, victims': seq<Listed>)
    requires Lists(runs, listed) && Excess(Bucket(listed, k), limit, victims) && d <= |victims|
    requires OfKind(mid, k) == OfKind(runs, k) - NameSet(victims[..d])
    requires forall n :: n in OfKind(mid, k) ==> mid[n] == runs[n]
    requires Lists(mid, listed') && Excess(Bucket(listed', k), limit, victims')
    requires OfKind(after, k) == OfKind(mid, k) - NameSet(victims')
    ensures KeepsNewest(runs, after, k, limit)
  {
    hide Lists, Excess, Bucket, NameSet, Recency, OfKind;
    CleanupKeepsNewest(mid, listed', k, limit, victims');
    ResumedSize(runs, k, limit, listed, victims, d);
    OfKindExists(runs, k);
    OfKindExists(mid, k);
    forall dropped, kept | dropped in OfKind(runs, k) - OfKind(after, k) && kept in OfKind(after, k)
      ensures Recency(runs[dropped]) <= Recency(runs[kept])
    {
      if dropped in NameSet(victims[..d]) {
        DeletedIsOlder(runs, k, limit, listed, victims, d, dropped, kept);
      }
    }
  }

  lemma OfKindExists(runs: map<string, Run>, k: Kind)
    ensures OfKind(runs, k) <= runs.Keys
  {
  }

  lemma ResumedSize(runs: map<string, Run>, k: Kind, limit: nat, listed: seq<Listed>, victims: seq<Listed>, d: nat)
    requires Lists(runs, listed) && Excess(Bucket(listed, k), limit, victims) && d <= |victims|
    ensures Min(|OfKind(runs, k) - NameSet(victims[..d])|, limit) == Min(|OfKind(runs, k)|, limit)
    ensures NameSet(victims[..d]) <= OfKind(runs, k)
  {
    hide Lists, OfKind, Bucket;
    BucketNames(runs, listed, k);
    assert UniqueNames(victims[..d]);
    NameSetSize(victims[..d]);
    forall x | x in victims[..d]
      ensures x in Bucket(listed, k)
    {
      assert x in victims;
    }
    SubsetByMembers(victims[..d], Bucket(listed, k));
  }

  lemma DeletedIsOlder(runs: map<string, Run>, k: Kind, limit: nat, listed: seq<Listed>, victims: seq<Listed>, d: nat,
                       dropped: string, kept: string)
    requires Lists(runs, listed) && Excess(Bucket(listed, k), limit, victims) && d <= |victims|
    requires dropped in NameSet(victims[..d]) && kept in OfKind(runs, k) && kept !in NameSet(victims[..d])
    ensures dropped in runs && Recency(runs[dropped]) <= Recency(runs[kept])
  {
    hide Bucket, Recency, Excess, UniqueNames;
    BucketMembers(listed, k);
    var i :| 0 <= i < d && victims[i].name == dropped;
    var x := Listed(kept, runs[kept]);
    assert x in Bucket(listed, k) && x !in victims[..d];
    OlderThanRest(Bucket(listed, k), limit, victims, i, d, x);
  }

  /** The first `d` victims are no more recent than any other run of the kind. */
  lemma OlderThanRest(runs: seq<Listed>, limit: nat, victims: seq<Listed>, i: nat, d: nat, x: Listed)
    requires Excess(runs, limit, victims) && i < d <= |victims| && x in runs && x !in victims[..d]
    ensures victims[i] in runs && Recency(victims[i].run) <= Recency(x.run)
  {
    hide Recency;
    assert victims[i] in victims;
    if x in victims {
      assert victims == victims[..d] + victims[d..];
      var j :| d <= j < |victims| && victims[j] == x;
    }
  }

  /** No two runs of a kind are equally recent. */
  ghost predicate NoTies(runs: map<string, Run>, k: Kind) {
    forall a, b :: a in OfKind(runs, k) && b in OfKind(runs, k) && Recency(runs[a]) == Recency(runs[b]) ==> a == b
  }

  lemma SurvivorsAreUnique(runs: map<string, Run>, a: map<string, Run>, b: map<string, Run>, k: Kind, limit: nat)
    requires NoTies(runs, k) && KeepsNewest(runs, a, k, limit) && KeepsNewest(runs, b, k, limit)
    ensures OfKind(a, k) == OfKind(b, k)
  {
    hide OfKind, Recency;
    if OfKind(a, k) != OfKind(b, k) {
      var x := OneMore(OfKind(a, k), OfKind(b, k));
      var y := OneMore(OfKind(b, k), OfKind(a, k));
      assert false;
    }
  }

  lemma EqualBySize(a: set<string>, b: set<string>)
    requires a <= b && |a| == |b|
    ensures a == b
  {
    assert b == a + (b - a);
  }

  lemma OneMore(a: set<string>, b: set<string>) returns (x: string)
    requires a != b && |a| == |b|
    ensures x in a && x !in b
  {
    if a <= b { EqualBySize(a, b); }
    x :| x in a && x !in b;
  }

  /** What a pass reads of a store: a full listing, and the history it will clean up. */
  ghost predicate View(st: Store, listed: seq<Listed>, gone: seq<Listed>, gone': seq<Listed>) {
    && Lists(st.runs, listed)
    && Excess(Bucket(listed, IsSucceeded), SuccessLimit(st.suite.spec), gone)
    && Excess(Bucket(listed, IsFailed), FailedLimit(st.suite.spec), gone')
  }

  function Cleaned(st: Store, gone: seq<Listed>, gone': seq<Listed>): Store {
    ExecAll(st, CleanupOps(gone, gone'))
  }

  lemma VictimsOfKind(st: Store, listed: seq<Listed>, gone: seq<Listed>, gone': seq<Listed>)
    requires View(st, listed, gone, gone')
    ensures NameSet(gone) <= OfKind(st.runs, IsSucceeded) && NameSet(gone') <= OfKind(st.runs, IsFailed)
  {
    hide Lists, Excess, Bucket, OfKind, NameSet;
    CleanupKeepsNewest(st.runs, listed, IsSucceeded, SuccessLimit(st.suite.spec), gone);
    CleanupKeepsNewest(st.runs, listed, IsFailed, FailedLimit(st.suite.spec), gone');
  }

  /** What is left of each kind when names of the two finished kinds are removed. */
  lemma KindsLeft(runs: map<string, Run>, a: set<string>, b: set<string>)
    requires a <= OfKind(runs, IsSucceeded) && b <= OfKind(runs, IsFailed)
    ensures OfKind(runs - a - b, IsSucceeded) == OfKind(runs, IsSucceeded) - a
    ensures OfKind(runs - a - b, IsFailed) == OfKind(runs, IsFailed) - b
    ensures OfKind(runs - a - b, IsActive) == OfKind(runs, IsActive)
  {
  }

  /** Two ways to remove finished runs that leave the same of each kind leave the same. */
  lemma SameLeft(runs: map<string, Run>, a: set<string>, b: set<string>, c: set<string>, d: set<string>)
    requires a <= OfKind(runs, IsSucceeded) && b <= OfKind(runs, IsFailed)
    requires c <= OfKind(runs, IsSucceeded) && d <= OfKind(runs, IsFailed)
    requires OfKind(runs, IsSucceeded) - a == OfKind(runs, IsSucceeded) - c
    requires OfKind(runs, IsFailed) - b == OfKind(runs, IsFailed) - d
    ensures runs - a - b == runs - c - d
  {
    hide OfKind;
    assert a == OfKind(runs, IsSucceeded) - (OfKind(runs, IsSucceeded) - a);
    assert b == OfKind(runs, IsFailed) - (OfKind(runs, IsFailed) - b);
    assert c == OfKind(runs, IsSucceeded) - (OfKind(runs, IsSucceeded) - c);
    assert d == OfKind(runs, IsFailed) - (OfKind(runs, IsFailed) - d);
  }

  /** The first `k` deletions are a cleanup of fewer runs. */
  lemma CleanupPrefix(gone: seq<Listed>, gone': seq<Listed>, k: nat)
    requires k <= |CleanupOps(gone, gone')|
    ensures var d := Min(k, |gone|); var d' := k - d;
      d <= |gone| && 0 <= d' <= |gone'| && CleanupOps(gone, gone')[..k] == CleanupOps(gone[..d], gone'[..d'])
  {
  }

  lemma SubNames(part: seq<Listed>, all: seq<Listed>)
    requires part <= all
    ensures NameSet(part) <= NameSet(all)
  {
    assert forall x :: x in part ==> x in all;
  }

  /** A cleanup stopped anywhere and resumed from a fresh listing ends with the same runs,
      as long as no two finished runs of a kind tie. */
  lemma CleanupResumes(st: Store, listed: seq<Listed>, gone: seq<Listed>, gone': seq<Listed>, k: nat,
                       listed': seq<Listed>, more: seq<Listed>, more': seq<Listed>)
    requires View(st, listed, gone, gone') && k <= |CleanupOps(gone, gone')|
    requires View(ExecAll(st, CleanupOps(gone, gone')[..k]), listed', more, more')
    requires NoTies(st.runs, IsSucceeded) && NoTies(st.runs, IsFailed)
    ensures Cleaned(ExecAll(st, CleanupOps(gone, gone')[..k]), more, more') == Cleaned(st, gone, gone')
  {
    hide Lists, Excess, Bucket, OfKind, NameSet, ExecAll, CleanupOps, NoTies, KeepsNewest, SuccessLimit, FailedLimit;
    var d := Min(k, |gone|);
    CleanupPrefix(gone, gone', k);
    var d' := k - d;
    var mid := ExecAll(st, CleanupOps(gone[..d], gone'[..d']));
    CleanupEffect(st, gone[..d], gone'[..d']);
    CleanupEffect(st, gone, gone');
    CleanupEffect(mid, more, more');
    VictimsOfKind(st, listed, gone, gone');
    VictimsOfKind(mid, listed', more, more');
    SubNames(gone[..d], gone);
    SubNames(gone'[..d'], gone');
    KindsLeft(st.runs, NameSet(gone[..d]), NameSet(gone'[..d']));
    KindsLeft(mid.runs, NameSet(more), NameSet(more'));
    var after := mid.runs - NameSet(more) - NameSet(more');
    ResumedKinds(st, listed, gone, gone', d, d', mid, listed', more, more', after);
    HistoryAfterCleanup(st, listed, SuccessLimit(st.suite.spec), FailedLimit(st.suite.spec), gone, gone');
    SurvivorsAreUnique(st.runs, after, Cleaned(st, gone, gone').runs, IsSucceeded, SuccessLimit(st.suite.spec));
    SurvivorsAreUnique(st.runs, after, Cleaned(st, gone, gone').runs, IsFailed, FailedLimit(st.suite.spec));
    KindsLeft(st.runs, NameSet(gone), NameSet(gone'));
    Rejoined(st.runs, NameSet(gone[..d]), NameSet(gone'[..d']), NameSet(more), NameSet(more'));
    SameLeft(st.runs, NameSet(gone[..d]) + NameSet(more), NameSet(gone'[..d']) + NameSet(more'), NameSet(gone), NameSet(gone'));
  }

  lemma Rejoined(runs: map<string, Run>, a: set<string>, b: set<string>, c: set<string>, d: set<string>)
    ensures runs - a - b - c - d == runs - (a + c) - (b + d)
  {
  }

  lemma ResumedKinds(st: Store, listed: seq<Listed>, gone: seq<Listed>, gone': seq<Listed>, d: nat, d': nat,
                     mid: Store, listed': seq<Listed>, more: seq<Listed>, more': seq<Listed>, after: map<string, Run>)
    requires View(st, listed, gone, gone') && View(mid, listed', more, more') && mid.suite == st.suite
    requires d <= |gone| && d' <= |gone'|
    requires mid.runs == st.runs - NameSet(gone[..d]) - NameSet(gone'[..d'])
    requires OfKind(mid.runs, IsSucceeded) == OfKind(st.runs, IsSucceeded) - NameSet(gone[..d])
    requires OfKind(mid.runs, IsFailed) == OfKind(st.runs, IsFailed) - NameSet(gone'[..d'])
    requires OfKind(after, IsSucceeded) == OfKind(mid.runs, IsSucceeded) - NameSet(more)
    requires OfKind(after, IsFailed) == OfKind(mid.runs, IsFailed) - NameSet(more')
    ensures KeepsNewest(st.runs, after, IsSucceeded, SuccessLimit(st.suite.spec))
    ensures KeepsNewest(st.runs, after, IsFailed, FailedLimit(st.suite.spec))
  {
    hide Lists, Excess, Bucket, OfKind, NameSet, KeepsNewest;
    OfKindExists(mid.runs, IsSucceeded);
    OfKindExists(mid.runs, IsFailed);
    KindResumed(st.runs, mid.runs, after, IsSucceeded, SuccessLimit(st.suite.spec), listed, gone, d, listed', more);
    KindResumed(st.runs, mid.runs, after, IsFailed, FailedLimit(st.suite.spec), listed, gone', d', listed', more');
  }

  // --------------------------------------------------------------- with ties

  function Dropped(runs: seq<Listed>, kept: set<string>): seq<Listed> {
    if |runs| == 0 then []
    else
      var x := runs[|runs| - 1];
      Dropped(runs[..|runs| - 1], kept) + if x.name in kept then [] else [x]
  }

  lemma {:induction false} DroppedMembers(runs: seq<Listed>, kept: set<string>)
    ensures forall x :: x in Dropped(runs, kept) <==> x in runs && x.name !in kept
  {
    if |runs| > 0 {
      DroppedMembers(runs[..|runs| - 1], kept);
      assert runs == runs[..|runs| - 1] + [runs[|runs| - 1]];
    }
  }

  lemma {:induction false} DroppedUnique(runs: seq<Listed>, kept: set<string>)
    requires UniqueNames(runs)
    ensures UniqueNames(Dropped(runs, kept))
  {
    if |runs| > 0 {
      var front := runs[..|runs| - 1];
      DroppedUnique(front, kept);
      DroppedMembers(front, kept);
      var d := Dropped(front, kept);
      forall i | 0 <= i < |d|
        ensures d[i].name != runs[|runs| - 1].name
      {
        assert d[i] in front;
      }
    }
  }

  /** Whenever the newest of a kind are kept, some choice a cleanup could have made keeps
      exactly those. */
  lemma SomeChoice(runs: map<string, Run>, after: map<string, Run>, listed: seq<Listed>, k: Kind, limit: nat) returns (victims: seq<Listed>)
    requires Lists(runs, listed) && KeepsNewest(runs, after, k, limit)
    ensures Excess(Bucket(listed, k), limit, victims)
    ensures NameSet(victims) == OfKind(runs, k) - OfKind(after, k)
  {
    hide Lists, Recency, OfKind, Bucket, UniqueNames, OldestFirst, NameSet;
    var bucket, kept := Bucket(listed, k), OfKind(after, k);
    BucketNames(runs, listed, k);
    ListedUnique(runs, listed, k);
    victims := DroppedByAge(bucket, kept);
    DroppedCount(OfKind(runs, k), kept, victims, limit);
    forall v, x | v in victims && x in bucket && x !in victims
      ensures Recency(v.run) <= Recency(x.run)
    {
      KeptIsNewer(runs, after, listed, k, limit, v, x);
    }
  }

  lemma DroppedByAge(runs: seq<Listed>, kept: set<string>) returns (victims: seq<Listed>)
    requires UniqueNames(runs)
    ensures UniqueNames(victims) && OldestFirst(victims)
    ensures forall x :: x in victims <==> x in runs && x.name !in kept
    ensures NameSet(victims) == NameSet(runs) - kept && |victims| == |NameSet(runs) - kept|
  {
    hide UniqueNames, OldestFirst, NameSet, Dropped, SortedByRecency;
    DroppedMembers(runs, kept);
    DroppedUnique(runs, kept);
    DroppedNames(runs, kept);
    SortingSorts(Dropped(runs, kept));
    victims := SortedByRecency(Dropped(runs, kept));
    SameNames(Dropped(runs, kept), victims);
  }

  lemma ListedUnique(runs: map<string, Run>, listed: seq<Listed>, k: Kind)
    requires Lists(runs, listed)
    ensures UniqueNames(Bucket(listed, k))
  {
    BucketUnique(listed, k);
  }

  lemma SameNames(a: seq<Listed>, b: seq<Listed>)
    requires forall x :: x in a <==> x in b
    ensures NameSet(a) == NameSet(b)
  {
  }

  lemma DroppedNames(runs: seq<Listed>, kept: set<string>)
    requires UniqueNames(runs)
    ensures NameSet(Dropped(runs, kept)) == NameSet(runs) - kept
    ensures |Dropped(runs, kept)| == |NameSet(runs) - kept|
  {
    DroppedMembers(runs, kept);
    DroppedUnique(runs, kept);
    NameSetSize(Dropped(runs, kept));
    assert NameSet(Dropped(runs, kept)) == NameSet(runs) - kept;
  }

  lemma DroppedCount(all: set<string>, kept: set<string>, d: seq<Listed>, limit: nat)
    requires kept <= all && |kept| == Min(|all|, limit) && |d| == |all - kept|
    ensures |d| == if |all| <= limit then 0 else |all| - limit
  {
    assert all == kept + (all - kept);
  }

  lemma KeptIsNewer(runs: map<string, Run>, after: map<string, Run>, listed: seq<Listed>, k: Kind, limit: nat, v: Listed, x: Listed)
    requires Lists(runs, listed) && KeepsNewest(runs, after, k, limit)
    requires v in Bucket(listed, k) && x in Bucket(listed, k) && v.name !in OfKind(after, k) && x.name in OfKind(after, k)
    ensures Recency(v.run) <= Recency(x.run)
  {
    hide Recency;
    BucketMembers(listed, k);
    assert v.name in OfKind(runs, k) && runs[v.name] == v.run && runs[x.name] == x.run;
  }

  /** A cleanup stopped anywhere and resumed ends as some undisturbed cleanup could have:
      with ties in recency it may have chosen other runs of equal age, never other than
      the newest. */
  lemma CleanupResumesWithTies(st: Store, listed: seq<Listed>, gone: seq<Listed>, gone': seq<Listed>, k: nat,
                               listed': seq<Listed>, more: seq<Listed>, more': seq<Listed>)
    returns (chosen: seq<Listed>, chosen': seq<Listed>)
    requires View(st, listed, gone, gone') && k <= |CleanupOps(gone, gone')|
    requires View(ExecAll(st, CleanupOps(gone, gone')[..k]), listed', more, more')
    ensures View(st, listed, chosen, chosen')
    ensures Cleaned(ExecAll(st, CleanupOps(gone, gone')[..k]), more, more') == Cleaned(st, chosen, chosen')
  {
    hide Lists, Excess, Bucket, OfKind, NameSet, ExecAll, CleanupOps, KeepsNewest, SuccessLimit, FailedLimit;
    var d := Min(k, |gone|);
    CleanupPrefix(gone, gone', k);
    var d' := k - d;
    var mid := ExecAll(st, CleanupOps(gone[..d], gone'[..d']));
    CleanupEffect(st, gone[..d], gone'[..d']);
    CleanupEffect(mid, more, more');
    VictimsOfKind(st, listed, gone, gone');
    VictimsOfKind(mid, listed', more, more');
    SubNames(gone[..d], gone);
    SubNames(gone'[..d'], gone');
    KindsLeft(st.runs, NameSet(gone[..d]), NameSet(gone'[..d']));
    KindsLeft(mid.runs, NameSet(more), NameSet(more'));
    var after := mid.runs - NameSet(more) - NameSet(more');
    ResumedKinds(st, listed, gone, gone', d, d', mid, listed', more, more', after);
    chosen := SomeChoice(st.runs, after, listed, IsSucceeded, SuccessLimit(st.suite.spec));
    chosen' := SomeChoice(st.runs, after, listed, IsFailed, FailedLimit(st.suite.spec));
    CleanupEffect(st, chosen, chosen');
    Rejoined(st.runs, NameSet(gone[..d]), NameSet(gone'[..d']), NameSet(more), NameSet(more'));
    SameLeft(st.runs, NameSet(gone[..d]) + NameSet(more), NameSet(gone'[..d']) + NameSet(more'), NameSet(chosen), NameSet(chosen'));
  }

  // ------------------------------------------------------------ whole passes

  function ActiveNames(listed: seq<Listed>): seq<string> {
    NamesOf(Bucket(listed, IsActive))
  }

  lemma ActiveNamesListed(runs: map<string, Run>, listed: seq<Listed>)
    requires Lists(runs, listed)
    ensures ActiveIn(runs, ActiveNames(listed))
  {
    hide Lists, Bucket, OfKind;
    BucketNames(runs, listed, IsActive);
    NamesAsSet(Bucket(listed, IsActive));
    assert forall n :: n in ActiveNames(listed) <==> n in (set m | m in NamesOf(Bucket(listed, IsActive)));
  }

  /** A pass from `st`, all of it. */
  ghost function WholePass(hash: string -> string, st: Store, suite: Suite, now: int,
                           listed: seq<Listed>, gone: seq<Listed>, gone': seq<Listed>): Store
  {
    ExecAll(st, PlanFor(hash, now, suite, listed, gone, gone'))
  }

  lemma WholePassIs(hash: string -> string, st: Store, suite: Suite, now: int, listed: seq<Listed>, gone: seq<Listed>, gone': seq<Listed>)
    ensures WholePass(hash, st, suite, now, listed, gone, gone')
      == Concluded(hash, Cleaned(st, gone, gone'), ActiveNames(listed), suite, now)
  {
    hide ExecAll, PlanFor, CleanupOps, LaterOps, Bucket, NamesOf;
    PlanParts(hash, now, suite, listed, gone, gone');
    ExecSplit(st, CleanupOps(gone, gone'), LaterOps(hash, suite, ActiveNames(listed), now));
  }

  /** Cleanup leaves the suite, the clock and the unfinished runs alone. */
  lemma CleanedKeeps(st: Store, listed: seq<Listed>, gone: seq<Listed>, gone': seq<Listed>)
    requires View(st, listed, gone, gone')
    ensures var c := Cleaned(st, gone, gone');
      && c.suite == st.suite && c.clock == st.clock && OfKind(c.runs, IsActive) == OfKind(st.runs, IsActive)
      && |OfKind(c.runs, IsSucceeded)| <= SuccessLimit(st.suite.spec) && |OfKind(c.runs, IsFailed)| <= FailedLimit(st.suite.spec)
  {
    hide Lists, Excess, Bucket, OfKind, ExecAll, CleanupOps, NameSet, SuccessLimit, FailedLimit;
    CleanupEffect(st, gone, gone');
    HistoryAfterCleanup(st, listed, SuccessLimit(st.suite.spec), FailedLimit(st.suite.spec), gone, gone');
  }

  /** Stopped during cleanup. */
  lemma ReplayDuringCleanup(hash: string -> string, st: Store, listed: seq<Listed>, gone: seq<Listed>, gone': seq<Listed>, k: nat,
                            listed': seq<Listed>, more: seq<Listed>, more': seq<Listed>)
    requires View(st, listed, gone, gone') && k <= |CleanupOps(gone, gone')|
    requires View(ExecAll(st, CleanupOps(gone, gone')[..k]), listed', more, more')
    requires NoTies(st.runs, IsSucceeded) && NoTies(st.runs, IsFailed)
    ensures var mid := ExecAll(st, CleanupOps(gone, gone')[..k]);
      SameResult(WholePass(hash, mid, st.suite, st.clock, listed', more, more'), WholePass(hash, st, st.suite, st.clock, listed, gone, gone'))
  {
    hide ExecAll, CleanupOps, NoTies, View, WholePass, SameResult, Cleaned;
    CleanupResumes(st, listed, gone, gone', k, listed', more, more');
    CleanedAlike(hash, st, listed, gone, gone', ExecAll(st, CleanupOps(gone, gone')[..k]), listed', more, more');
  }

  /** What a pass does after cleanup adds nothing to its history. */
  lemma {:induction false} NoNewHistory(st: Store, ops: seq<Op>, k: Kind)
    requires k != IsActive
    ensures OfKind(ExecAll(st, ops).runs, k) <= OfKind(st.runs, k)
  {
    if |ops| > 0 { NoNewHistory(st, ops[..|ops| - 1], k); }
  }

  lemma NothingToClean(runs: map<string, Run>, listed: seq<Listed>, k: Kind, limit: nat, victims: seq<Listed>)
    requires Lists(runs, listed) && Excess(Bucket(listed, k), limit, victims) && |OfKind(runs, k)| <= limit
    ensures victims == []
  {
    BucketNames(runs, listed, k);
  }

  /** Stopped after cleanup, a replay has nothing left to clean up. */
  lemma CleanupIsOver(hash: string -> string, st: Store, active: seq<string>, k: nat,
                      listed: seq<Listed>, more: seq<Listed>, more': seq<Listed>)
    requires |OfKind(st.runs, IsSucceeded)| <= SuccessLimit(st.suite.spec) && |OfKind(st.runs, IsFailed)| <= FailedLimit(st.suite.spec)
    requires k < |LaterOps(hash, st.suite, active, st.clock)| && View(Stopped(hash, st, active, k), listed, more, more')
    ensures more == [] && more' == []
  {
    hide ExecAll, LaterOps, OfKind, Lists, Excess, Bucket, SuccessLimit, FailedLimit;
    var mid := Stopped(hash, st, active, k);
    BeforeCommit(hash, st, active, k);
    NoNewHistory(st, LaterOps(hash, st.suite, active, st.clock)[..k], IsSucceeded);
    NoNewHistory(st, LaterOps(hash, st.suite, active, st.clock)[..k], IsFailed);
    SubsetSize(OfKind(mid.runs, IsSucceeded), OfKind(st.runs, IsSucceeded));
    SubsetSize(OfKind(mid.runs, IsFailed), OfKind(st.runs, IsFailed));
    NothingToClean(mid.runs, listed, IsSucceeded, SuccessLimit(st.suite.spec), more);
    NothingToClean(mid.runs, listed, IsFailed, FailedLimit(st.suite.spec), more');
  }

  lemma BeforeCommit(hash: string -> string, st: Store, active: seq<string>, k: nat)
    requires k < |LaterOps(hash, st.suite, active, st.clock)|
    ensures Stopped(hash, st, active, k).suite == st.suite && Stopped(hash, st, active, k).clock == st.clock
  {
    hide ExecAll, TickOps, ManualOps, StatusAfter;
    LaterOpsLeaveSuite(hash, st, st.suite, active, st.clock, k);
    assert LaterOps(hash, st.suite, active, st.clock)[..k] == (ManualOps(hash, st.suite) + TickOps(hash, st.suite, active, st.clock))[..k];
  }

  lemma NoCleanup(st: Store)
    ensures Cleaned(st, [], []) == st
  {
    assert CleanupOps([], []) == [];
  }

  /** Any pass over current reads, stopped after any number of its writes before the
      commit and replayed at the same instant from current reads, ends where it would have
      ended, unless a due trigger meets a firing tick; no two finished runs of a kind may
      tie in recency, or cleanup might choose differently. */
  lemma WholePassReplays(hash: string -> string, st: Store, listed: seq<Listed>, gone: seq<Listed>, gone': seq<Listed>, k: nat,
                         listed': seq<Listed>, more: seq<Listed>, more': seq<Listed>)
    requires View(st, listed, gone, gone') && k < |PlanFor(hash, st.clock, st.suite, listed, gone, gone')|
    requires View(ExecAll(st, PlanFor(hash, st.clock, st.suite, listed, gone, gone')[..k]), listed', more, more')
    requires NoTies(st.runs, IsSucceeded) && NoTies(st.runs, IsFailed)
    requires !TriggerMeetsTick(hash, Cleaned(st, gone, gone'), ActiveNames(listed))
    ensures var mid := ExecAll(st, PlanFor(hash, st.clock, st.suite, listed, gone, gone')[..k]);
      SameResult(WholePass(hash, mid, st.suite, st.clock, listed', more, more'), WholePass(hash, st, st.suite, st.clock, listed, gone, gone'))
  {
    hide ExecAll, PlanFor, CleanupOps, LaterOps, NoTies, OfKind, View, WholePass, SameResult, TriggerMeetsTick, ActiveNames;
    var cleanup, later := CleanupOps(gone, gone'), LaterOps(hash, st.suite, ActiveNames(listed), st.clock);
    PlanParts(hash, st.clock, st.suite, listed, gone, gone');
    assert PlanFor(hash, st.clock, st.suite, listed, gone, gone') == cleanup + later by { hide PlanFor; ActiveIsNames(listed); }
    if k <= |cleanup| {
      assert (cleanup + later)[..k] == cleanup[..k];
      ReplayDuringCleanup(hash, st, listed, gone, gone', k, listed', more, more');
    } else {
      assert (cleanup + later)[..k] == cleanup + later[..k - |cleanup|];
      ExecSplit(st, cleanup, later[..k - |cleanup|]);
      ReplayAfterCleanup(hash, st, listed, gone, gone', k - |cleanup|, listed', more, more');
    }
  }

  lemma ActiveIsNames(listed: seq<Listed>)
    ensures ActiveNames(listed) == NamesOf(Bucket(listed, IsActive))
  {
  }

  lemma ReplayAfterCleanup(hash: string -> string, st: Store, listed: seq<Listed>, gone: seq<Listed>, gone': seq<Listed>, j: nat,
                           listed': seq<Listed>, more: seq<Listed>, more': seq<Listed>)
    requires View(st, listed, gone, gone') && j < |LaterOps(hash, st.suite, ActiveNames(listed), st.clock)|
    requires var clean := Cleaned(st, gone, gone');
      View(ExecAll(clean, LaterOps(hash, st.suite, ActiveNames(listed), st.clock)[..j]), listed', more, more')
    requires !TriggerMeetsTick(hash, Cleaned(st, gone, gone'), ActiveNames(listed))
    ensures var mid := ExecAll(Cleaned(st, gone, gone'), LaterOps(hash, st.suite, ActiveNames(listed), st.clock)[..j]);
      SameResult(WholePass(hash, mid, st.suite, st.clock, listed', more, more'), WholePass(hash, st, st.suite, st.clock, listed, gone, gone'))
  {
    hide ExecAll, CleanupOps, LaterOps, OfKind, WholePass, SameResult, Cleaned, TriggerMeetsTick, ActiveNames, Lists, Excess, Bucket, ActiveIn, SuccessLimit, FailedLimit;
    var clean, active := Cleaned(st, gone, gone'), ActiveNames(listed);
    CleanedKeeps(st, listed, gone, gone');
    var mid := Stopped(hash, clean, active, j);
    CleanupIsOver(hash, clean, active, j, listed', more, more');
    NoCleanup(mid);
    ActiveNamesListed(st.runs, listed);
    ActiveNamesListed(mid.runs, listed');
    SameActive(st.runs, clean.runs, active);
    AgreeingReplay(hash, clean, active, j, ActiveNames(listed'));
    WholePassIs(hash, st, st.suite, st.clock, listed, gone, gone');
    WholePassIs(hash, mid, st.suite, st.clock, listed', more, more');
  }

  lemma SameActive(a: map<string, Run>, b: map<string, Run>, active: seq<string>)
    requires ActiveIn(a, active) && OfKind(a, IsActive) == OfKind(b, IsActive)
    ensures ActiveIn(b, active)
  {
    hide OfKind;
  }

  /** With ties, wherever such a pass stops, its replay ends as some undisturbed pass over
      the same reads could have ended. */
  lemma WholePassReplaysWithTies(hash: string -> string, st: Store, listed: seq<Listed>, gone: seq<Listed>, gone': seq<Listed>, k: nat,
                                 listed': seq<Listed>, more: seq<Listed>, more': seq<Listed>)
    returns (chosen: seq<Listed>, chosen': seq<Listed>)
    requires View(st, listed, gone, gone') && k < |PlanFor(hash, st.clock, st.suite, listed, gone, gone')|
    requires View(ExecAll(st, PlanFor(hash, st.clock, st.suite, listed, gone, gone')[..k]), listed', more, more')
    requires !TriggerMeetsTick(hash, Cleaned(st, gone, gone'), ActiveNames(listed))
    ensures View(st, listed, chosen, chosen')
    ensures var mid := ExecAll(st, PlanFor(hash, st.clock, st.suite, listed, gone, gone')[..k]);
      SameResult(WholePass(hash, mid, st.suite, st.clock, listed', more, more'), WholePass(hash, st, st.suite, st.clock, listed, chosen, chosen'))
  {
    hide ExecAll, PlanFor, CleanupOps, LaterOps, OfKind, View, WholePass, SameResult, TriggerMeetsTick, ActiveNames;
    var cleanup, later := CleanupOps(gone, gone'), LaterOps(hash, st.suite, ActiveNames(listed), st.clock);
    PlanParts(hash, st.clock, st.suite, listed, gone, gone');
    ActiveIsNames(listed);
    if k <= |cleanup| {
      assert (cleanup + later)[..k] == cleanup[..k];
      chosen, chosen' := CleanupResumesWithTies(st, listed, gone, gone', k, listed', more, more');
      CleanedAlike(hash, st, listed, chosen, chosen', ExecAll(st, cleanup[..k]), listed', more, more');
    } else {
      chosen, chosen' := gone, gone';
      assert (cleanup + later)[..k] == cleanup + later[..k - |cleanup|];
      ExecSplit(st, cleanup, later[..k - |cleanup|]);
      ReplayAfterCleanup(hash, st, listed, gone, gone', k - |cleanup|, listed', more, more');
    }
  }

  /** Passes from stores that clean up to the same one end alike. */
  lemma CleanedAlike(hash: string -> string, st: Store, listed: seq<Listed>, gone: seq<Listed>, gone': seq<Listed>,
                     mid: Store, listed': seq<Listed>, more: seq<Listed>, more': seq<Listed>)
    requires View(st, listed, gone, gone') && View(mid, listed', more, more')
    requires Cleaned(mid, more, more') == Cleaned(st, gone, gone')
    ensures SameResult(WholePass(hash, mid, st.suite, st.clock, listed', more, more'), WholePass(hash, st, st.suite, st.clock, listed, gone, gone'))
  {
    hide ExecAll, PlanFor, CleanupOps, Bucket, NamesOf, OfKind, Excess, Lists, WholePass, SameResult, Cleaned, ActiveNames;
    WholePassIs(hash, st, st.suite, st.clock, listed, gone, gone');
    WholePassIs(hash, mid, st.suite, st.clock, listed', more, more');
    CleanedKeeps(st, listed, gone, gone');
    CleanedKeeps(mid, listed', more, more');
    ActiveNamesListed(st.runs, listed);
    ActiveNamesListed(mid.runs, listed');
    ReplayRestarted(hash, Cleaned(st, gone, gone'), ActiveNames(listed), ActiveNames(listed'));
  }
}
