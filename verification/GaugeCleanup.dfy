/** Deleting a suite's gauges races with runs that outlive it. Any number of finished
    runs write gauges step by step while suites come and go in the informer cache and
    the suite reconciler cleans up after deletions. */
module GaugeCleanup {
  import opened Metrics

  // ------------------------------------------------------------------- state

  /** Where a recorder is: clearing, setting gauge by gauge, then the completion time,
      then looking the suite up, and dropping the series if it is gone. */
  datatype Recorder =
    | Clearing(key: SuiteKey, results: map<string, bool>, completedAt: int)
    | Setting(key: SuiteKey, results: map<string, bool>, todo: set<string>, completedAt: int)
    | Completing(key: SuiteKey, completedAt: int)
    | Looking(key: SuiteKey)
    | DroppingResults(key: SuiteKey)
    | DroppingCompletion(key: SuiteKey)

  /** A reconcile of one suite key that has been taken off the queue. */
  datatype Cleaner = Dequeued | DropResults | DropCompletion

  /** `visible`: suites in the informer cache; `pending`: keys with an undelivered or
      queued event; `cleaners`: reconciles in progress, at most one per key. `lostResults`
      and `lostCompletion`: keys whose series of that kind a recorder left behind because
      its lookup failed with an error after the suite had gone, not dropped since. */
  datatype State = State(
    visible: set<SuiteKey>,
    pending: set<SuiteKey>,
    cleaners: map<SuiteKey, Cleaner>,
    recorders: map<nat, Recorder>,
    results: Gauges,
    completion: map<SuiteKey, int>,
    lostResults: set<SuiteKey>,
    lostCompletion: set<SuiteKey>)

  // ---------------------------------------------------------------- the steps

  datatype Event =
    | SuiteAppears(key: SuiteKey)
    | SuiteDisappears(key: SuiteKey)
    | Requeue(key: SuiteKey)
    | Dequeue(key: SuiteKey)
    | Clean(key: SuiteKey)
    | ReadFails(key: SuiteKey)
    | RunFinishes(id: nat, key: SuiteKey, verdicts: map<string, bool>, at: int)
    | SetOne(id: nat, check: string)
    | Record(id: nat)
    | LookupFails(id: nat)

  predicate Enabled(s: State, e: Event) {
    match e
    case SuiteAppears(_) => true
    case SuiteDisappears(_) => true
    case Requeue(_) => true
    case Dequeue(k) => k in s.pending && k !in s.cleaners
    case Clean(k) => k in s.cleaners
    case ReadFails(k) => k in s.cleaners && s.cleaners[k] == Dequeued
    case RunFinishes(id, _, _, _) => id !in s.recorders
    case SetOne(id, c) => id in s.recorders && s.recorders[id].Setting? && c in s.recorders[id].todo
    case LookupFails(id) => id in s.recorders && s.recorders[id].Looking?
    case Record(id) => id in s.recorders && (s.recorders[id].Setting? ==> s.recorders[id].todo == {})
  }

  predicate HasSeries(g: Gauges, k: SuiteKey) {
    exists x :: x in g && x.key == k
  }

  function DroppedResults(s: State, k: SuiteKey): State {
    s.(results := Without(s.results, k), lostResults := s.lostResults - {k})
  }

  function DroppedCompletion(s: State, k: SuiteKey): State {
    s.(completion := s.completion - {k}, lostCompletion := s.lostCompletion - {k})
  }

  /** The cache changes before the event it queues is handled, and both controllers read
      that one cache. A reconcile whose own read fails is queued again. */
  function Next(s: State, e: Event): State
    requires Enabled(s, e)
  {
    match e
    case SuiteAppears(k) => s.(visible := s.visible + {k}, pending := s.pending + {k})
    case SuiteDisappears(k) => s.(visible := s.visible - {k}, pending := s.pending + {k})
    case Requeue(k) => s.(pending := s.pending + {k})
    case Dequeue(k) => s.(pending := s.pending - {k}, cleaners := s.cleaners[k := Dequeued])
    case Clean(k) =>
      (match s.cleaners[k]
       case Dequeued =>
         s.(cleaners := if k in s.visible then s.cleaners - {k} else s.cleaners[k := DropResults])
       case DropResults => DroppedResults(s, k).(cleaners := s.cleaners[k := DropCompletion])
       case DropCompletion => DroppedCompletion(s, k).(cleaners := s.cleaners - {k}))
    case ReadFails(k) => s.(pending := s.pending + {k}, cleaners := s.cleaners - {k})
    case RunFinishes(id, k, m, at) => s.(recorders := s.recorders[id := Clearing(k, m, at)])
    case SetOne(id, c) =>
      var r := s.recorders[id];
      if c in r.results then
        s.(recorders := s.recorders[id := r.(todo := r.todo - {c})],
           results := s.results[CheckSeries(r.key, c) := r.results[c]])
      else s
    case LookupFails(id) =>
      var k := s.recorders[id].key;
      s.(recorders := s.recorders - {id},
         lostResults := s.lostResults + if k !in s.visible && HasSeries(s.results, k) then {k} else {},
         lostCompletion := s.lostCompletion + if k !in s.visible && k in s.completion then {k} else {})
    case Record(id) => Advance(s, id)
  }

  /** A recorder's next step; setting single gauges is a step of its own. */
  function Advance(s: State, id: nat): State
    requires id in s.recorders
  {
    match s.recorders[id]
    case Clearing(k, m, at) =>
      DroppedResults(s, k).(recorders := s.recorders[id := Setting(k, m, m.Keys, at)])
    case Setting(k, m, todo, at) => s.(recorders := s.recorders[id := Completing(k, at)])
    case Completing(k, at) => s.(recorders := s.recorders[id := Looking(k)], completion := s.completion[k := at])
    case Looking(k) =>
      s.(recorders := if k in s.visible then s.recorders - {id} else s.recorders[id := DroppingResults(k)])
    case DroppingResults(k) =>
      DroppedResults(s, k).(recorders := s.recorders[id := DroppingCompletion(k)])
    case DroppingCompletion(k) => DroppedCompletion(s, k).(recorders := s.recorders - {id})
  }

  ghost predicate Initial(s: State) {
    s.pending == {} && s.cleaners == map[] && s.recorders == map[] && s.results == map[] && s.completion == map[] && s.lostResults == {} && s.lostCompletion == {}
  }

  ghost predicate Behavior(tr: seq<State>) {
    && |tr| > 0 && Initial(tr[0])
    && forall i :: 0 <= i < |tr| - 1 ==> Step(tr[i], tr[i + 1])
  }

  ghost predicate Step(s: State, s': State) {
    exists e :: Enabled(s, e) && s' == Next(s, e)
  }

  // ------------------------------------------------------------- the invariant

  predicate HasResults(s: State, k: SuiteKey, c: string) {
    CheckSeries(k, c) in s.results
  }

  /** A recorder that will still look the suite up, or is about to drop its verdicts. */
  predicate WillDropResults(r: Recorder, k: SuiteKey) {
    r.key == k && !r.DroppingCompletion?
  }

  /** Someone is bound to remove the key's verdict gauges if the suite stays gone, or
      they are known to be left behind. */
  ghost predicate ResultsCovered(s: State, k: SuiteKey) {
    || k in s.visible || k in s.lostResults
    || k in s.pending
    || (k in s.cleaners && s.cleaners[k] != DropCompletion)
    || (exists id :: StillCovers(s, id, k))
  }

  ghost predicate CompletionCovered(s: State, k: SuiteKey) {
    || k in s.visible || k in s.lostCompletion
    || k in s.pending
    || k in s.cleaners
    || (exists id :: id in s.recorders && s.recorders[id].key == k)
  }

  /** What counts as left behind really is there. */
  ghost predicate LostExist(s: State) {
    && (forall k :: k in s.lostResults ==> HasSeries(s.results, k))
    && (forall k :: k in s.lostCompletion ==> k in s.completion)
  }

  ghost predicate Inv(s: State) {
    && (forall k, c :: HasResults(s, k, c) ==> ResultsCovered(s, k))
    && (forall k :: k in s.completion ==> CompletionCovered(s, k))
    && LostExist(s)
  }

  predicate IsRecording(e: Event) {
    e.RunFinishes? || e.SetOne? || e.Record? || e.LookupFails?
  }

  /** Steps of the informer and of the suite reconciler. */
  lemma CleanerStep(s: State, e: Event)
    requires Inv(s) && Enabled(s, e) && !IsRecording(e)
    ensures Inv(Next(s, e))
  {
    var s' := Next(s, e);
    forall k, c | HasResults(s', k, c)
      ensures ResultsCovered(s', k)
    {
      assert HasResults(s, k, c);
      if id :| StillCovers(s, id, k) {
        assert StillCovers(s', id, k);
      }
    }
    forall k | k in s'.completion
      ensures CompletionCovered(s', k)
    {
      assert CompletionCovered(s, k);
      if id :| id in s.recorders && s.recorders[id].key == k {
        assert id in s'.recorders && s'.recorders[id].key == k;
      }
    }
    LostExistStep(s, e);
  }

  lemma SeriesOfOther(g: Gauges, k: SuiteKey, other: SuiteKey)
    ensures HasSeries(Without(g, k), other) <==> other != k && HasSeries(g, other)
  {
    if HasSeries(g, other) && other != k {
      var x :| x in g && x.key == other;
      assert x in Without(g, k);
    }
  }

  lemma SeriesAdded(g: Gauges, x: CheckSeries, v: bool, k: SuiteKey)
    requires HasSeries(g, k)
    ensures HasSeries(g[x := v], k)
  {
    var y :| y in g && y.key == k;
    assert y in g[x := v];
  }

  lemma LostExistStep(s: State, e: Event)
    requires LostExist(s) && Enabled(s, e)
    ensures LostExist(Next(s, e))
  {
    hide HasSeries, Without;
    var s' := Next(s, e);
    forall k | k in s'.lostResults
      ensures HasSeries(s'.results, k)
    {
      LostResultsExist(s, e, k);
    }
  }

  lemma LostResultsExist(s: State, e: Event, k: SuiteKey)
    requires LostExist(s) && Enabled(s, e) && k in Next(s, e).lostResults
    ensures HasSeries(Next(s, e).results, k)
  {
    hide HasSeries, Without;
    match e
    case Clean(key) => SeriesOfOther(s.results, key, k);
    case Record(id) => SeriesOfOther(s.results, s.recorders[id].key, k);
    case SetOne(id, c) =>
      var r := s.recorders[id];
      if c in r.results && k in s.lostResults { SeriesAdded(s.results, CheckSeries(r.key, c), r.results[c], k); }
    case _ =>
  }

  lemma RecorderStep(s: State, e: Event)
    requires Inv(s) && Enabled(s, e) && IsRecording(e)
    ensures Inv(Next(s, e))
  {
    var s' := Next(s, e);
    forall k, c | HasResults(s', k, c)
      ensures ResultsCovered(s', k)
    {
      RecorderCoversResults(s, e, k, c);
    }
    forall k | k in s'.completion
      ensures CompletionCovered(s', k)
    {
      RecorderCoversCompletion(s, e, k);
    }
    LostExistStep(s, e);
  }

  /** A recording step from `s` to `s'` concerns one recorder, which keeps its key; it
      only leaves when the suite is visible, its completion time is dropped, or that time
      counts as left behind. */
  ghost predicate Concerns(s: State, s': State, id: nat) {
    && s'.visible == s.visible && s'.pending == s.pending && s'.cleaners == s.cleaners
    && (forall j :: j in s.recorders && j != id ==> j in s'.recorders && s'.recorders[j] == s.recorders[j])
    && (id in s.recorders && id in s'.recorders ==> s'.recorders[id].key == s.recorders[id].key)
    && (id in s.recorders && id !in s'.recorders ==>
          var k := s.recorders[id].key; k in s'.visible || k in s'.lostCompletion || k !in s'.completion)
    && (forall k :: k in s.lostCompletion && k in s'.completion ==> k in s'.lostCompletion)
    && (forall k :: k in s'.completion && k !in s.completion ==> id in s'.recorders && s'.recorders[id].key == k)
  }

  /** It only adds verdicts it will still look after, and only stops looking after them
      once they are gone, left behind, or someone else is responsible. */
  ghost predicate LooksAfter(s: State, s': State, id: nat) {
    && (forall k, c :: HasResults(s', k, c) ==> HasResults(s, k, c) || StillCovers(s', id, k))
    && (forall k, c :: HasResults(s', k, c) && StillCovers(s, id, k) && !StillCovers(s', id, k) ==>
          k in s'.visible || k in s'.lostResults)
    && (forall k, c :: HasResults(s', k, c) && k in s.lostResults ==> k in s'.lostResults)
  }

  predicate StillCovers(s: State, id: nat, k: SuiteKey) {
    id in s.recorders && WillDropResults(s.recorders[id], k)
  }

  lemma AdvanceConcerns(s: State, id: nat)
    requires id in s.recorders
    ensures Concerns(s, Advance(s, id), id)
  {
  }

  lemma AdvanceLooksAfter(s: State, id: nat)
    requires id in s.recorders
    ensures LooksAfter(s, Advance(s, id), id)
  {
  }

  lemma RecordingConcerns(s: State, e: Event)
    requires Enabled(s, e) && IsRecording(e)
    ensures Concerns(s, Next(s, e), e.id) && LooksAfter(s, Next(s, e), e.id)
  {
    hide Advance;
    if e.Record? {
      AdvanceConcerns(s, e.id);
      AdvanceLooksAfter(s, e.id);
    }
  }

  lemma RecorderCoversResults(s: State, e: Event, k: SuiteKey, c: string)
    requires Inv(s) && Enabled(s, e) && IsRecording(e)
    requires HasResults(Next(s, e), k, c)
    ensures ResultsCovered(Next(s, e), k)
  {
    hide Next, Enabled;
    var s' := Next(s, e);
    RecordingConcerns(s, e);
    if !StillCovers(s', e.id, k) {
      assert HasResults(s, k, c) && ResultsCovered(s, k);
      if id :| StillCovers(s, id, k) {
        assert id == e.id || StillCovers(s', id, k);
      }
    }
  }

  lemma RecorderCoversCompletion(s: State, e: Event, k: SuiteKey)
    requires Inv(s) && Enabled(s, e) && IsRecording(e)
    requires k in Next(s, e).completion
    ensures CompletionCovered(Next(s, e), k)
  {
    hide Next, Enabled;
    var s' := Next(s, e);
    RecordingConcerns(s, e);
    if k in s.completion {
      assert CompletionCovered(s, k);
      if id :| id in s.recorders && s.recorders[id].key == k {
        assert id in s'.recorders ==> s'.recorders[id].key == k;
      }
    }
  }

  lemma {:induction false} Invariant(tr: seq<State>, i: nat)
    requires Behavior(tr) && i < |tr|
    ensures Inv(tr[i])
  {
    if i > 0 {
      Invariant(tr, i - 1);
      assert Step(tr[i - 1], tr[i]);
      var e :| Enabled(tr[i - 1], e) && tr[i] == Next(tr[i - 1], e);
      if IsRecording(e) {
        RecorderStep(tr[i - 1], e);
      } else {
        CleanerStep(tr[i - 1], e);
      }
    }
  }

  /** Nothing is left to do for the key. */
  ghost predicate Quiet(s: State, k: SuiteKey) {
    && k !in s.pending && k !in s.cleaners
    && forall id :: id in s.recorders ==> s.recorders[id].key != k
  }

  /** Once a suite is gone from the cache and everything concerning it has run its
      course, whatever the interleaving was, a gauge series of a kind exists exactly when
      a recorder whose lookup failed after the suite had gone left that kind behind and
      nothing has dropped it since. */
  lemma NoGaugeOutlivesItsSuite(tr: seq<State>, i: nat, k: SuiteKey)
    requires Behavior(tr) && i < |tr| && k !in tr[i].visible && Quiet(tr[i], k)
    ensures k in tr[i].completion <==> k in tr[i].lostCompletion
    ensures (exists c :: HasResults(tr[i], k, c)) <==> k in tr[i].lostResults
  {
    Invariant(tr, i);
    var s := tr[i];
    if k in s.lostResults {
      var x :| x in s.results && x.key == k;
      assert x == CheckSeries(k, x.check);
      assert HasResults(s, k, x.check);
    }
  }

  predicate LookupFailed(e: Event, s: State, k: SuiteKey) {
    e.LookupFails? && e.id in s.recorders && s.recorders[e.id].key == k && k !in s.visible
  }

  /** Without such a failure nothing ever counts as left behind. */
  lemma LostOnlyByFailedLookup(s: State, e: Event, k: SuiteKey)
    requires Enabled(s, e) && !LookupFailed(e, s, k)
    ensures k in Next(s, e).lostResults ==> k in s.lostResults
    ensures k in Next(s, e).lostCompletion ==> k in s.lostCompletion
  {
  }

  /** The lookup error matters: the recorder then returns without dropping anything. */
  lemma FailedLookupLeaksGauges(k: SuiteKey) returns (tr: seq<State>)
    ensures Behavior(tr)
    ensures var s := tr[|tr| - 1]; k !in s.visible && Quiet(s, k) && k in s.completion && HasResults(s, k, "c")
  {
    var s0 := State({}, {}, map[], map[], map[], map[], {}, {});
    var m: map<string, bool> := map["c" := true];
    var s1 := s0.(recorders := map[0 := Clearing(k, m, 7)]);
    var s2 := s0.(recorders := map[0 := Setting(k, m, {"c"}, 7)]);
    var s3 := s0.(recorders := map[0 := Setting(k, m, {}, 7)], results := map[CheckSeries(k, "c") := true]);
    var s4 := s3.(recorders := map[0 := Completing(k, 7)]);
    var s5 := s3.(recorders := map[0 := Looking(k)], completion := map[k := 7]);
    var s6 := s5.(recorders := map[], lostResults := {k}, lostCompletion := {k});
    LeakStarts(s0, s1, s2, s3, k, m);
    LeakEnds(s3, s4, s5, s6, k, m);
    tr := [s0, s1, s2, s3, s4, s5, s6];
  }

  lemma LeakStarts(s0: State, s1: State, s2: State, s3: State, k: SuiteKey, m: map<string, bool>)
    requires s0 == State({}, {}, map[], map[], map[], map[], {}, {}) && m == map["c" := true]
    requires s1 == s0.(recorders := map[0 := Clearing(k, m, 7)])
    requires s2 == s0.(recorders := map[0 := Setting(k, m, {"c"}, 7)])
    requires s3 == s0.(recorders := map[0 := Setting(k, m, {}, 7)], results := map[CheckSeries(k, "c") := true])
    ensures Step(s0, s1) && Step(s1, s2) && Step(s2, s3)
  {
    assert Enabled(s0, RunFinishes(0, k, m, 7)) && Next(s0, RunFinishes(0, k, m, 7)) == s1;
    assert m.Keys == {"c"};
    assert Enabled(s1, Record(0)) && Next(s1, Record(0)) == s2;
    var r := s2.recorders[0];
    assert r.todo - {"c"} == {} && r.(todo := r.todo - {"c"}) == Setting(k, m, {}, 7);
    assert s2.results[CheckSeries(k, "c") := true] == s3.results;
    assert Enabled(s2, SetOne(0, "c"));
    assert Next(s2, SetOne(0, "c")) == s3;
  }

  lemma LeakEnds(s3: State, s4: State, s5: State, s6: State, k: SuiteKey, m: map<string, bool>)
    requires s3.recorders.Keys == {0} && s3.recorders[0] == Setting(k, m, {}, 7)
    requires s3.completion == map[] && s3.lostResults == s3.lostCompletion == {} && s3.visible == {}
    requires CheckSeries(k, "c") in s3.results
    requires s4 == s3.(recorders := map[0 := Completing(k, 7)])
    requires s5 == s3.(recorders := map[0 := Looking(k)], completion := map[k := 7])
    requires s6 == s5.(recorders := map[], lostResults := {k}, lostCompletion := {k})
    ensures Step(s3, s4) && Step(s4, s5) && Step(s5, s6)
  {
    assert s3.recorders[0 := Completing(k, 7)] == s4.recorders;
    assert Enabled(s3, Record(0)) && Next(s3, Record(0)) == s4;
    assert Enabled(s4, Record(0)) && Next(s4, Record(0)) == s5;
    assert s5.recorders - {0} == map[];
    assert Enabled(s5, LookupFails(0)) && Next(s5, LookupFails(0)) == s6;
  }
}
