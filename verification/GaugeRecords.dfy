/** The gauges of a suite that exists: they survive every interleaving, and show the last
    finished run as long as runs of the suite do not finish at the same time. */
module GaugeRecords {
  import opened Metrics
  import opened GaugeCleanup

  /** Someone has decided to drop the key's series. */
  ghost predicate Dropping(s: State, k: SuiteKey) {
    || (k in s.cleaners && s.cleaners[k] != Dequeued)
    || (exists id :: id in s.recorders && Drops(s.recorders[id], k))
  }

  predicate Drops(r: Recorder, k: SuiteKey) {
    r == DroppingResults(k) || r == DroppingCompletion(k)
  }

  /** The decision to drop a key's series is made exactly when its suite is not visible, by
      the suite reconciler's read or by a recorder's lookup. */
  lemma DropsExactlyWhenGone(s: State, e: Event, k: SuiteKey)
    requires Enabled(s, e) && !Dropping(s, k)
    ensures Dropping(Next(s, e), k) <==>
      k !in s.visible && (e == Clean(k) || (e.Record? && s.recorders[e.id] == Looking(k)))
  {
    if e.Record? && e.id in Next(s, e).recorders && Drops(Next(s, e).recorders[e.id], k) {
      assert s.recorders[e.id] == Looking(k);
    }
    if e.Record? && s.recorders[e.id] == Looking(k) && k !in s.visible {
      assert Drops(Next(s, e).recorders[e.id], k);
    }
    forall id | id in Next(s, e).recorders && Drops(Next(s, e).recorders[id], k)
      ensures e.Record? && id == e.id
    {
      assert id in s.recorders ==> !Drops(s.recorders[id], k);
    }
  }

  /** Until then the completion time stays, and verdicts are only removed by the recorder of
      a newer run, which clears them first. */
  lemma NothingDropped(s: State, e: Event, k: SuiteKey)
    requires Enabled(s, e) && !Dropping(s, k)
    ensures k in s.completion ==> k in Next(s, e).completion
    ensures forall c :: HasResults(s, k, c) && !HasResults(Next(s, e), k, c) ==>
      e.Record? && s.recorders[e.id].Clearing? && s.recorders[e.id].key == k
  {
    if e.Record? {
      assert !Drops(s.recorders[e.id], k);
    }
  }

  // -------------------------------------------------------------- whole histories

  /** `events` lead through the states of `tr`. */
  ghost predicate Leads(tr: seq<State>, events: seq<Event>) {
    && |tr| == |events| + 1
    && forall n :: 0 <= n < |events| ==> Enabled(tr[n], events[n]) && tr[n + 1] == Next(tr[n], events[n])
  }

  /** The suite exists from moment a to b. */
  ghost predicate VisibleFrom(tr: seq<State>, a: nat, b: nat, k: SuiteKey)
    requires b < |tr|
  {
    forall n :: a <= n <= b ==> k in tr[n].visible
  }

  lemma {:induction false} NeverDropping(tr: seq<State>, events: seq<Event>, a: nat, b: nat, k: SuiteKey)
    requires Leads(tr, events) && a <= b < |tr| && VisibleFrom(tr, a, b, k) && !Dropping(tr[a], k)
    ensures !Dropping(tr[b], k)
    decreases b
  {
    hide Enabled, Next, Dropping;
    if a < b {
      NeverDropping(tr, events, a, b - 1, k);
      DropsExactlyWhenGone(tr[b - 1], events[b - 1], k);
    }
  }

  /** While the suite exists and nobody was already dropping its series, its completion time
      stays once it is there, whatever runs finish and whatever the suite reconciler does... */
  lemma {:induction false} CompletionStays(tr: seq<State>, events: seq<Event>, a: nat, b: nat, k: SuiteKey)
    requires Leads(tr, events) && a <= b < |tr| && VisibleFrom(tr, a, b, k) && !Dropping(tr[a], k)
    requires k in tr[a].completion
    ensures k in tr[b].completion
    decreases b
  {
    hide Enabled, Next, Dropping;
    if a < b {
      CompletionStays(tr, events, a, b - 1, k);
      NeverDropping(tr, events, a, b - 1, k);
      NothingDropped(tr[b - 1], events[b - 1], k);
    }
  }

  lemma InitiallyQuiet(s: State, k: SuiteKey)
    requires Initial(s)
    ensures !Dropping(s, k) && k !in s.completion
  {
  }

  /** A recorder that looks its suite up has written the completion time before. */
  ghost predicate WrittenOnce(s: State, k: SuiteKey) {
    (exists id :: id in s.recorders && s.recorders[id] == Looking(k)) ==> k in s.completion
  }

  lemma WrittenStep(s: State, e: Event, k: SuiteKey)
    requires Enabled(s, e) && !Dropping(s, k) && WrittenOnce(s, k)
    ensures WrittenOnce(Next(s, e), k)
  {
    NothingDropped(s, e, k);
    var s' := Next(s, e);
    if id :| id in s'.recorders && s'.recorders[id] == Looking(k) {
      if !(id in s.recorders && s.recorders[id] == Looking(k)) {
        assert e == Record(id) && s.recorders[id].Completing? && s.recorders[id].key == k;
      }
    }
  }

  lemma {:induction false} LookingHasWritten(tr: seq<State>, events: seq<Event>, b: nat, k: SuiteKey)
    requires Leads(tr, events) && Initial(tr[0]) && b < |tr| && VisibleFrom(tr, 0, b, k)
    ensures WrittenOnce(tr[b], k)
    decreases b
  {
    hide Enabled, Next, Dropping, WrittenOnce;
    if b == 0 {
      NothingLooks(tr[0], k);
    } else {
      LookingHasWritten(tr, events, b - 1, k);
      InitiallyQuiet(tr[0], k);
      NeverDropping(tr, events, 0, b - 1, k);
      WrittenStep(tr[b - 1], events[b - 1], k);
    }
  }

  lemma NothingLooks(s: State, k: SuiteKey)
    requires Initial(s)
    ensures WrittenOnce(s, k)
  {
  }

  /** A recorder of the key that leaves. */
  predicate Finishes(s: State, s': State, id: nat, k: SuiteKey) {
    id in s.recorders && s.recorders[id].key == k && id !in s'.recorders
  }

  /** ...so for a suite that exists throughout, it is there ever after the first recorder of
      the suite has finished. */
  lemma FinishedRunShows(tr: seq<State>, events: seq<Event>, a: nat, b: nat, id: nat, k: SuiteKey)
    requires Leads(tr, events) && Initial(tr[0]) && a < b < |tr| && VisibleFrom(tr, 0, b, k)
    requires Finishes(tr[a], tr[a + 1], id, k)
    ensures k in tr[b].completion
  {
    hide Dropping;
    InitiallyQuiet(tr[0], k);
    NeverDropping(tr, events, 0, a, k);
    NeverDropping(tr, events, 0, a + 1, k);
    LookingHasWritten(tr, events, a, k);
    LeavesFromLookup(tr[a], events[a], id, k);
    NothingDropped(tr[a], events[a], k);
    CompletionStays(tr, events, a + 1, b, k);
  }

  lemma LeavesFromLookup(s: State, e: Event, id: nat, k: SuiteKey)
    requires Enabled(s, e) && !Dropping(s, k) && Finishes(s, Next(s, e), id, k)
    ensures s.recorders[id] == Looking(k)
  {
    assert !Drops(s.recorders[id], k);
  }

  // ---------------------------------------------------------- one run at a time

  /** The key's verdict gauges are those of `shown`. */
  ghost predicate Shows(s: State, k: SuiteKey, shown: map<string, bool>) {
    forall c :: (HasResults(s, k, c) <==> c in shown) && (c in shown ==> s.results[CheckSeries(k, c)] == shown[c])
  }

  ghost predicate CompletedAt(s: State, k: SuiteKey, at: int) {
    k in s.completion && s.completion[k] == at
  }

  /** How far recorder `id` of a run with verdicts `m` has come, if it is the only recorder
      of its suite; once it is through, no recorder of the suite is left. */
  ghost predicate Alone(s: State, id: nat, k: SuiteKey, m: map<string, bool>, at: int) {
    && !Dropping(s, k)
    && (forall j :: j in s.recorders && s.recorders[j].key == k ==> j == id)
    && if id in s.recorders && s.recorders[id].key == k then
         match s.recorders[id]
         case Clearing(_, m', at') => m' == m && at' == at
         case Setting(_, m', todo, at') => m' == m && at' == at && todo <= m.Keys && Shows(s, k, m - todo)
         case Completing(_, at') => at' == at && Shows(s, k, m)
         case Looking(_) => Shows(s, k, m) && CompletedAt(s, k, at)
         case _ => false
       else
         Shows(s, k, m) && CompletedAt(s, k, at)
  }

  ghost predicate Starts(e: Event, k: SuiteKey) {
    e.RunFinishes? && e.key == k
  }

  ghost predicate SameSeries(s: State, s': State, k: SuiteKey) {
    && (forall c :: HasResults(s', k, c) <==> HasResults(s, k, c))
    && (forall c :: HasResults(s, k, c) && HasResults(s', k, c) ==> s'.results[CheckSeries(k, c)] == s.results[CheckSeries(k, c)])
    && (k in s'.completion <==> k in s.completion)
    && (k in s.completion && k in s'.completion ==> s'.completion[k] == s.completion[k])
  }

  ghost predicate SameRecorders(s: State, s': State, k: SuiteKey) {
    && (forall j :: j in s'.recorders && s'.recorders[j].key == k ==> j in s.recorders && s'.recorders[j] == s.recorders[j])
    && (forall j :: j in s.recorders && s.recorders[j].key == k ==> j in s'.recorders && s'.recorders[j] == s.recorders[j])
  }

  predicate IsOwn(s: State, e: Event, k: SuiteKey) {
    (e.SetOne? || e.Record? || e.LookupFails?) && e.id in s.recorders && s.recorders[e.id].key == k
  }

  /** Steps of anybody else leave the key's series and its recorders alone. */
  lemma OthersLeaveIt(s: State, e: Event, k: SuiteKey)
    requires Enabled(s, e) && !Dropping(s, k) && !Starts(e, k) && !IsOwn(s, e, k)
    ensures SameSeries(s, Next(s, e), k)
  {
  }

  lemma OthersKeepRecorders(s: State, e: Event, k: SuiteKey)
    requires Enabled(s, e) && !Starts(e, k) && !IsOwn(s, e, k)
    ensures SameRecorders(s, Next(s, e), k)
  {
  }

  lemma AloneStep(s: State, e: Event, id: nat, k: SuiteKey, m: map<string, bool>, at: int)
    requires Enabled(s, e) && Alone(s, id, k, m, at) && k in s.visible && !Starts(e, k)
    ensures Alone(Next(s, e), id, k, m, at)
  {
    hide Alone, Enabled, Next, Starts;
    AloneMeansKept(s, id, k, m, at);
    DropsExactlyWhenGone(s, e, k);
    if IsOwn(s, e, k) {
      OwnStep(s, e, id, k, m, at);
    } else {
      OthersLeaveIt(s, e, k);
      OthersKeepRecorders(s, e, k);
      OthersKeepAlone(s, Next(s, e), id, k, m, at);
    }
  }

  lemma AloneMeansKept(s: State, id: nat, k: SuiteKey, m: map<string, bool>, at: int)
    requires Alone(s, id, k, m, at)
    ensures !Dropping(s, k)
  {
  }

  lemma OthersKeepAlone(s: State, s': State, id: nat, k: SuiteKey, m: map<string, bool>, at: int)
    requires Alone(s, id, k, m, at) && !Dropping(s', k) && SameSeries(s, s', k) && SameRecorders(s, s', k)
    ensures Alone(s', id, k, m, at)
  {
    hide Dropping;
  }

  lemma OwnStep(s: State, e: Event, id: nat, k: SuiteKey, m: map<string, bool>, at: int)
    requires Enabled(s, e) && Alone(s, id, k, m, at) && k in s.visible && !Dropping(Next(s, e), k)
    requires IsOwn(s, e, k)
    ensures Alone(Next(s, e), id, k, m, at)
  {
    hide Dropping, Next, Enabled, Shows;
    assert e.id == id;
    match e
    case SetOne(_, c) => OwnSet(s, id, c, k, m, at);
    case Record(_) => OwnRecord(s, id, k, m, at);
    case LookupFails(_) => OwnLookupFails(s, id, k, m, at);
  }

  lemma OwnSet(s: State, id: nat, c: string, k: SuiteKey, m: map<string, bool>, at: int)
    requires Enabled(s, SetOne(id, c)) && Alone(s, id, k, m, at) && !Dropping(Next(s, SetOne(id, c)), k) && s.recorders[id].key == k
    ensures Alone(Next(s, SetOne(id, c)), id, k, m, at)
  {
    hide Dropping;
    var todo := s.recorders[id].todo;
    assert (m - todo)[c := m[c]] == m - (todo - {c});
  }

  lemma OwnLookupFails(s: State, id: nat, k: SuiteKey, m: map<string, bool>, at: int)
    requires Enabled(s, LookupFails(id)) && Alone(s, id, k, m, at) && !Dropping(Next(s, LookupFails(id)), k)
    requires s.recorders[id].key == k
    ensures Alone(Next(s, LookupFails(id)), id, k, m, at)
  {
    hide Dropping;
  }

  lemma OwnRecord(s: State, id: nat, k: SuiteKey, m: map<string, bool>, at: int)
    requires Enabled(s, Record(id)) && Alone(s, id, k, m, at) && k in s.visible && !Dropping(Next(s, Record(id)), k)
    requires s.recorders[id].key == k
    ensures Alone(Next(s, Record(id)), id, k, m, at)
  {
    hide Dropping;
    assert m - m.Keys == map[];
    assert m - {} == m;
  }

  lemma {:induction false} AloneFrom(tr: seq<State>, events: seq<Event>, a: nat, b: nat, id: nat, k: SuiteKey,
                                     m: map<string, bool>, at: int)
    requires Leads(tr, events) && a < b < |tr| && VisibleFrom(tr, a, b, k) && !Dropping(tr[a], k)
    requires events[a] == RunFinishes(id, k, m, at) && (forall j :: j in tr[a].recorders ==> tr[a].recorders[j].key != k)
    requires forall n :: a < n < b ==> !Starts(events[n], k)
    ensures Alone(tr[b], id, k, m, at)
    decreases b
  {
    hide Dropping, Alone, Starts, Enabled, Next;
    if b == a + 1 {
      FirstAlone(tr[a], id, k, m, at);
    } else {
      AloneFrom(tr, events, a, b - 1, id, k, m, at);
      AloneStep(tr[b - 1], events[b - 1], id, k, m, at);
    }
  }

  lemma FirstAlone(s: State, id: nat, k: SuiteKey, m: map<string, bool>, at: int)
    requires Enabled(s, RunFinishes(id, k, m, at)) && !Dropping(s, k) && forall j :: j in s.recorders ==> s.recorders[j].key != k
    ensures Alone(Next(s, RunFinishes(id, k, m, at)), id, k, m, at)
  {
    DropsExactlyWhenGone(s, RunFinishes(id, k, m, at), k);
  }

  /** If a run finishes while no other run of its suite is being recorded, and none finishes
      until it has been, then from there on the suite's series are exactly that run's
      verdicts and completion time: as long as the suite exists, nobody was dropping them to
      begin with, and no further run finishes. */
  lemma LastRunShows(tr: seq<State>, events: seq<Event>, a: nat, b: nat, id: nat, k: SuiteKey, m: map<string, bool>, at: int)
    requires Leads(tr, events) && a < b < |tr| && VisibleFrom(tr, a, b, k) && !Dropping(tr[a], k)
    requires events[a] == RunFinishes(id, k, m, at) && (forall j :: j in tr[a].recorders ==> tr[a].recorders[j].key != k)
    requires forall n :: a < n < b ==> !Starts(events[n], k)
    requires forall j :: j in tr[b].recorders ==> tr[b].recorders[j].key != k
    ensures Shows(tr[b], k, m) && CompletedAt(tr[b], k, at)
  {
    hide Dropping, Starts;
    AloneFrom(tr, events, a, b, id, k, m, at);
  }

  // ------------------------------------------------------------------ progress

  /** Nobody waits for anybody else: suites come and go, keys are queued and runs finish at
      any time; a queued key is taken up unless it is being reconciled, and a reconcile and
      a recorder can always go on. */
  lemma NobodyIsStuck(s: State, k: SuiteKey, id: nat, m: map<string, bool>, at: int)
    ensures Enabled(s, SuiteAppears(k)) && Enabled(s, SuiteDisappears(k)) && Enabled(s, Requeue(k))
    ensures Enabled(s, RunFinishes(id, k, m, at)) <==> id !in s.recorders
    ensures Enabled(s, Dequeue(k)) <==> k in s.pending && k !in s.cleaners
    ensures Enabled(s, Clean(k)) <==> k in s.cleaners
    ensures id in s.recorders <==> Enabled(s, Record(id)) || exists c :: Enabled(s, SetOne(id, c))
  {
    if id in s.recorders && s.recorders[id].Setting? && s.recorders[id].todo != {} {
      var c :| c in s.recorders[id].todo;
      assert Enabled(s, SetOne(id, c));
    }
  }

  /** How many steps a recorder has left at most. */
  function Left(s: State, id: nat): nat {
    if id !in s.recorders then 0
    else match s.recorders[id]
      case Clearing(_, m, _) => |m.Keys| + 6
      case Setting(_, _, todo, _) => |todo| + 5
      case Completing(_, _) => 4
      case Looking(_) => 3
      case DroppingResults(_) => 2
      case DroppingCompletion(_) => 1
  }

  lemma OwnStepShortens(s: State, e: Event, id: nat)
    requires Enabled(s, e) && IsRecording(e) && e.id == id && id in s.recorders
    requires s.recorders[id].Setting? ==> s.recorders[id].todo <= s.recorders[id].results.Keys
    ensures Left(Next(s, e), id) < Left(s, id)
  {
    hide Advance, Left;
    match e
    case SetOne(_, c) => SetShortens(s, id, c);
    case Record(_) => RecordShortens(s, id);
    case LookupFails(_) => FailureEnds(s, id);
  }

  lemma SetShortens(s: State, id: nat, c: string)
    requires Enabled(s, SetOne(id, c)) && s.recorders[id].todo <= s.recorders[id].results.Keys
    ensures Left(Next(s, SetOne(id, c)), id) < Left(s, id)
  {
    hide Without, Advance;
    var todo := s.recorders[id].todo;
    assert todo == (todo - {c}) + {c};
  }

  lemma FailureEnds(s: State, id: nat)
    requires Enabled(s, LookupFails(id))
    ensures Left(Next(s, LookupFails(id)), id) < Left(s, id)
  {
    hide Without, Advance, HasSeries;
  }

  lemma RecordShortens(s: State, id: nat)
    requires Enabled(s, Record(id))
    ensures Left(Advance(s, id), id) < Left(s, id)
  {
    hide Without;
  }

  lemma OtherStepKeeps(s: State, e: Event, id: nat)
    requires Enabled(s, e) && id in s.recorders && !(IsRecording(e) && e.id == id)
    ensures id in Next(s, e).recorders && Next(s, e).recorders[id] == s.recorders[id]
  {
    hide Without;
  }

  /** Each step of its own brings a recorder closer to its end, and no other step takes it
      back, so it ends. */
  lemma RecordersEnd(s: State, e: Event, id: nat)
    requires Enabled(s, e) && id in s.recorders
    requires s.recorders[id].Setting? ==> s.recorders[id].todo <= s.recorders[id].results.Keys
    ensures if IsRecording(e) && e.id == id then Left(Next(s, e), id) < Left(s, id) else Left(Next(s, e), id) == Left(s, id)
  {
    hide Next, Enabled;
    if IsRecording(e) && e.id == id {
      OwnStepShortens(s, e, id);
    } else {
      OtherStepKeeps(s, e, id);
    }
  }
}
