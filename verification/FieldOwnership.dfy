/** Server-side apply on CheckRun.status: every writer submits only its own fields,
    under its own field manager. */
module FieldOwnership {
  import opened Types

  const CONTROLLER := "verikube-checkrun-controller"

  datatype Field = FPhase | FStart | FCompletion | FSummary | FCondition(kind: ConditionType)

  const FIELDS: set<Field> := {
    FPhase, FStart, FCompletion, FSummary,
    FCondition(Completed), FCondition(DeadlineExceeded), FCondition(ServiceAccountMissing)
  }

  /** The key of a list-map item is itself a field, so pods of one runner share the
      `name` of their runner item. */
  datatype Path =
    | Controller(field: Field)
    | RunnerKey(runner: string)
    | PodKey(runner: string, pod: string)
    | PodBody(runner: string, pod: string)

  datatype Value =
    | VPhase(phase: RunPhase)
    | VTime(time: int)
    | VSummary(summary: Summary)
    | VReason(reason: Reason)
    | VName(name: string)
    | VBody(body: PodResult)

  type Doc = map<Path, Value>

  // ------------------------------------------------------------ the documents

  /** Unset fields are omitted from the document. */
  function FieldValue(st: ControllerStatus, f: Field): Option<Value> {
    match f
    case FPhase => if st.phase == Unset then None else Some(VPhase(st.phase))
    case FStart => if st.startTime.None? then None else Some(VTime(st.startTime.value))
    case FCompletion => if st.completionTime.None? then None else Some(VTime(st.completionTime.value))
    case FSummary => if st.summary.None? then None else Some(VSummary(st.summary.value))
    case FCondition(c) => if c in st.conditions then Some(VReason(st.conditions[c])) else None
  }

  function ControllerDoc(st: ControllerStatus): Doc {
    map f | f in FIELDS && FieldValue(st, f).Some? :: Controller(f) := FieldValue(st, f).value
  }

  function PodDoc(runner: string, pod: string, body: PodResult): Doc {
    map[RunnerKey(runner) := VName(runner), PodKey(runner, pod) := VName(pod), PodBody(runner, pod) := VBody(body)]
  }

  datatype Write =
    | ControllerWrite(status: ControllerStatus)
    | PodWrite(runner: string, pod: string, body: PodResult)

  function Manager(w: Write): string {
    if w.ControllerWrite? then CONTROLLER else w.pod
  }

  function DocOf(w: Write): Doc {
    if w.ControllerWrite? then ControllerDoc(w.status) else PodDoc(w.runner, w.pod, w.body)
  }

  /** A Job pod's name never equals the controller's field manager. */
  predicate Genuine(w: Write) {
    w.PodWrite? ==> w.pod != CONTROLLER
  }

  // --------------------------------------------------------- apply semantics

  datatype Managed = Managed(values: Doc, owners: map<Path, set<string>>)

  const EMPTY := Managed(map[], map[])

  function OwnersOf(s: Managed, p: Path): set<string> {
    if p in s.owners then s.owners[p] else {}
  }

  /** Someone else owns the field with a different value; apply without force fails. */
  predicate ConflictAt(s: Managed, mgr: string, doc: Doc, p: Path) {
    p in doc && p in s.values && s.values[p] != doc[p] && OwnersOf(s, p) - {mgr} != {}
  }

  ghost predicate Conflicts(s: Managed, mgr: string, doc: Doc) {
    exists p :: ConflictAt(s, mgr, doc, p)
  }

  /** Fields in the document are set and owned; fields the manager owned but no longer
      lists are released, and removed when nobody else owns them. */
  function Apply(s: Managed, mgr: string, doc: Doc): Managed {
    var owners := map p | p in s.owners.Keys + doc.Keys && (p in doc || OwnersOf(s, p) - {mgr} != {}) ::
      if p in doc then OwnersOf(s, p) + {mgr} else OwnersOf(s, p) - {mgr};
    Managed(map p | p in owners && (p in doc || p in s.values) :: if p in doc then doc[p] else s.values[p], owners)
  }

  /** Every field present has an owner, and the other way round. */
  ghost predicate WellOwned(s: Managed) {
    && s.values.Keys == s.owners.Keys
    && forall p :: p in s.owners ==> s.owners[p] != {}
  }

  /** What an apply does to one field. */
  lemma ApplyAt(s: Managed, mgr: string, doc: Doc, p: Path)
    requires WellOwned(s)
    ensures var t := Apply(s, mgr, doc);
      && OwnersOf(t, p) == (if p in doc then OwnersOf(s, p) + {mgr} else OwnersOf(s, p) - {mgr})
      && (p in t.values <==> OwnersOf(t, p) != {})
      && (p in t.values <==> p in t.owners)
      && (p in doc ==> p in t.values && t.values[p] == doc[p])
      && (p !in doc && p in t.values ==> p in s.values && t.values[p] == s.values[p])
  {
  }

  lemma ApplyWellOwned(s: Managed, mgr: string, doc: Doc)
    requires WellOwned(s)
    ensures WellOwned(Apply(s, mgr, doc))
  {
    forall p
      ensures var t := Apply(s, mgr, doc); (p in t.values <==> p in t.owners) && (p in t.owners ==> OwnersOf(t, p) != {})
    {
      ApplyAt(s, mgr, doc, p);
    }
  }

  /** None once some apply has been rejected with a conflict. */
  ghost function RunWrites(ws: seq<Write>): Option<Managed> {
    if |ws| == 0 then Some(EMPTY)
    else
      var before := RunWrites(ws[..|ws| - 1]);
      var w := ws[|ws| - 1];
      if before.None? || Conflicts(before.value, Manager(w), DocOf(w)) then None
      else Some(Apply(before.value, Manager(w), DocOf(w)))
  }

  // ------------------------------------------------------ write separation

  /** Each manager's most recent write. */
  function LastWrites(ws: seq<Write>): map<string, Write> {
    if |ws| == 0 then map[]
    else var w := ws[|ws| - 1]; LastWrites(ws[..|ws| - 1])[Manager(w) := w]
  }

  predicate Lists(last: map<string, Write>, m: string, p: Path) {
    m in last && p in DocOf(last[m])
  }

  /** `s` is exactly the union of the managers' last documents. */
  ghost predicate Reflects(s: Managed, last: map<string, Write>) {
    && WellOwned(s)
    && (forall m, p :: Lists(last, m, p) <==> m in OwnersOf(s, p))
    && (forall m, p :: Lists(last, m, p) ==> p in s.values && s.values[p] == DocOf(last[m])[p])
  }

  ghost predicate WellKeyed(last: map<string, Write>) {
    forall m :: m in last ==> Manager(last[m]) == m && Genuine(last[m])
  }

  lemma SameFields(s: Managed, t: Managed)
    requires WellOwned(s) && WellOwned(t)
    requires forall p :: OwnersOf(s, p) == OwnersOf(t, p)
    requires forall p :: p in s.values && p in t.values ==> s.values[p] == t.values[p]
    ensures s == t
  {
    assert forall p :: p in s.owners <==> OwnersOf(s, p) != {};
    assert forall p :: p in t.owners <==> OwnersOf(t, p) != {};
    assert s.owners == t.owners;
    assert s.values == t.values;
  }

  lemma ReflectsDetermines(s: Managed, t: Managed, last: map<string, Write>)
    requires Reflects(s, last) && Reflects(t, last)
    ensures s == t
  {
    forall p
      ensures OwnersOf(s, p) == OwnersOf(t, p)
    {
      assert forall m :: m in OwnersOf(s, p) <==> Lists(last, m, p);
      assert forall m :: m in OwnersOf(t, p) <==> Lists(last, m, p);
    }
    forall p | p in s.values && p in t.values
      ensures s.values[p] == t.values[p]
    {
      var m :| m in OwnersOf(s, p);
      assert Lists(last, m, p);
    }
    SameFields(s, t);
  }

  /** Different managers only ever share runner keys, and agree on them. */
  lemma DocsAgree(v: Write, w: Write, p: Path)
    requires Genuine(v) && Genuine(w) && Manager(v) != Manager(w)
    requires p in DocOf(v) && p in DocOf(w)
    ensures p.RunnerKey? && DocOf(v)[p] == DocOf(w)[p] == VName(p.runner)
  {
  }

  lemma NoConflictAt(s: Managed, last: map<string, Write>, w: Write, p: Path)
    requires Genuine(w) && WellKeyed(last) && Reflects(s, last)
    ensures !ConflictAt(s, Manager(w), DocOf(w), p)
  {
    if ConflictAt(s, Manager(w), DocOf(w), p) {
      var m :| m in OwnersOf(s, p) - {Manager(w)};
      assert Lists(last, m, p);
      DocsAgree(last[m], w, p);
      assert false;
    }
  }

  /** The writer itself afterwards owns exactly the fields of its new document. */
  lemma ApplyReflectsWriter(s: Managed, last: map<string, Write>, w: Write, p: Path)
    requires Genuine(w) && WellKeyed(last) && Reflects(s, last)
    ensures var t, last' := Apply(s, Manager(w), DocOf(w)), last[Manager(w) := w];
      && (Lists(last', Manager(w), p) <==> Manager(w) in OwnersOf(t, p))
      && (Lists(last', Manager(w), p) ==> p in t.values && t.values[p] == DocOf(w)[p])
  {
    hide Apply, DocOf, Manager;
    ApplyAt(s, Manager(w), DocOf(w), p);
  }

  /** Everybody else still owns exactly the fields of their last document. */
  lemma ApplyReflectsOther(s: Managed, last: map<string, Write>, w: Write, m: string, p: Path)
    requires Genuine(w) && WellKeyed(last) && Reflects(s, last) && m != Manager(w)
    ensures var t := Apply(s, Manager(w), DocOf(w));
      && (Lists(last, m, p) <==> m in OwnersOf(t, p))
      && (Lists(last, m, p) ==> p in t.values && t.values[p] == DocOf(last[m])[p])
  {
    hide Apply, DocOf, Manager;
    ApplyAt(s, Manager(w), DocOf(w), p);
    assert Lists(last, m, p) <==> m in OwnersOf(s, p);
    if Lists(last, m, p) && p in DocOf(w) {
      DocsAgree(last[m], w, p);
    }
  }

  lemma ApplyReflectsAt(s: Managed, last: map<string, Write>, w: Write, m: string, p: Path)
    requires Genuine(w) && WellKeyed(last) && Reflects(s, last)
    ensures var t, last' := Apply(s, Manager(w), DocOf(w)), last[Manager(w) := w];
      && (Lists(last', m, p) <==> m in OwnersOf(t, p))
      && (Lists(last', m, p) ==> p in t.values && t.values[p] == DocOf(last'[m])[p])
  {
    hide Apply, DocOf, Manager, OwnersOf, Reflects, WellKeyed;
    if m == Manager(w) {
      ApplyReflectsWriter(s, last, w, p);
    } else {
      ApplyReflectsOther(s, last, w, m, p);
    }
  }

  lemma ApplyReflects(s: Managed, last: map<string, Write>, w: Write)
    requires Genuine(w) && WellKeyed(last) && Reflects(s, last)
    ensures !Conflicts(s, Manager(w), DocOf(w))
    ensures Reflects(Apply(s, Manager(w), DocOf(w)), last[Manager(w) := w])
  {
    forall p ensures !ConflictAt(s, Manager(w), DocOf(w), p) {
      NoConflictAt(s, last, w, p);
    }
    ApplyWellOwned(s, Manager(w), DocOf(w));
    var t, last' := Apply(s, Manager(w), DocOf(w)), last[Manager(w) := w];
    forall m, p
      ensures Lists(last', m, p) <==> m in OwnersOf(t, p)
      ensures Lists(last', m, p) ==> p in t.values && t.values[p] == DocOf(last'[m])[p]
    {
      ApplyReflectsAt(s, last, w, m, p);
    }
  }

  lemma {:induction false} LastWritesKeyed(ws: seq<Write>)
    requires forall w :: w in ws ==> Genuine(w)
    ensures WellKeyed(LastWrites(ws))
  {
    if |ws| > 0 {
      assert ws[|ws| - 1] in ws;
      LastWritesKeyed(ws[..|ws| - 1]);
    }
  }

  /** No sequence of controller and pod applies ever conflicts, and the status is
      exactly the union of everyone's last document. */
  lemma {:induction false} WritesNeverConflict(ws: seq<Write>)
    requires forall w :: w in ws ==> Genuine(w)
    ensures RunWrites(ws).Some? && Reflects(RunWrites(ws).value, LastWrites(ws))
  {
    if |ws| > 0 {
      var init, w := ws[..|ws| - 1], ws[|ws| - 1];
      assert w in ws;
      WritesNeverConflict(init);
      LastWritesKeyed(init);
      ApplyReflects(RunWrites(init).value, LastWrites(init), w);
    }
  }

  /** One manager's writes, in the order it made them. */
  function Projection(ws: seq<Write>, m: string): seq<Write> {
    if |ws| == 0 then []
    else
      var w := ws[|ws| - 1];
      Projection(ws[..|ws| - 1], m) + if Manager(w) == m then [w] else []
  }

  lemma {:induction false} LastWriteOfProjection(ws: seq<Write>, m: string)
    ensures var p := Projection(ws, m);
      && (m in LastWrites(ws) <==> |p| > 0)
      && (|p| > 0 ==> LastWrites(ws)[m] == p[|p| - 1])
  {
    if |ws| > 0 {
      LastWriteOfProjection(ws[..|ws| - 1], m);
    }
  }

  /** However the managers' writes interleave, the status ends up the same. */
  lemma InterleavingIrrelevant(ws: seq<Write>, vs: seq<Write>)
    requires forall w :: w in ws || w in vs ==> Genuine(w)
    requires forall m :: Projection(ws, m) == Projection(vs, m)
    ensures RunWrites(ws) == RunWrites(vs)
  {
    forall m
      ensures m in LastWrites(ws) <==> m in LastWrites(vs)
      ensures m in LastWrites(ws) ==> LastWrites(ws)[m] == LastWrites(vs)[m]
    {
      LastWriteOfProjection(ws, m);
      LastWriteOfProjection(vs, m);
    }
    assert LastWrites(ws) == LastWrites(vs);
    WritesNeverConflict(ws);
    WritesNeverConflict(vs);
    ReflectsDetermines(RunWrites(ws).value, RunWrites(vs).value, LastWrites(ws));
  }

  /** Repeating a manager's last write changes nothing, whatever others wrote since. */
  lemma RepeatIsNoOp(ws: seq<Write>, w: Write)
    requires forall v :: v in ws ==> Genuine(v)
    requires Manager(w) in LastWrites(ws) && LastWrites(ws)[Manager(w)] == w
    ensures RunWrites(ws + [w]) == RunWrites(ws)
  {
    var again := ws + [w];
    assert again[..|again| - 1] == ws;
    LastWritesKeyed(ws);
    WritesNeverConflict(ws);
    WritesNeverConflict(again);
    assert LastWrites(again) == LastWrites(ws);
    ReflectsDetermines(RunWrites(again).value, RunWrites(ws).value, LastWrites(ws));
  }

  // ------------------------------------------------------- reading it back

  function ReadEntry(s: Managed, runner: string, pod: string): Option<PodResult> {
    var p := PodBody(runner, pod);
    if p in s.values && s.values[p].VBody? then Some(s.values[p].body) else None
  }

  function ReadField(s: Managed, f: Field): Option<Value> {
    if Controller(f) in s.values then Some(s.values[Controller(f)]) else None
  }

  /** The body of pod `p`'s last report, if that report was for runner `r`. */
  function LastReport(ws: seq<Write>, r: string, p: string): Option<PodResult> {
    var last := LastWrites(ws);
    if p in last && last[p].PodWrite? && last[p].runner == r then Some(last[p].body) else None
  }

  function LastFieldValue(ws: seq<Write>, f: Field): Option<Value> {
    var last := LastWrites(ws);
    if CONTROLLER in last && last[CONTROLLER].ControllerWrite? then FieldValue(last[CONTROLLER].status, f) else None
  }

  /** Each entry is its pod's last report, and the controller's fields are those of
      its last apply: one side's writes never disturb the other's. */
  lemma EveryoneReadsTheirLastWrite(ws: seq<Write>)
    requires forall w :: w in ws ==> Genuine(w)
    ensures RunWrites(ws).Some?
    ensures forall r, p :: ReadEntry(RunWrites(ws).value, r, p) == LastReport(ws, r, p)
    ensures forall f :: f in FIELDS ==> ReadField(RunWrites(ws).value, f) == LastFieldValue(ws, f)
  {
    WritesNeverConflict(ws);
    LastWritesKeyed(ws);
    var s, last := RunWrites(ws).value, LastWrites(ws);
    forall r, p
      ensures ReadEntry(s, r, p) == LastReport(ws, r, p)
    {
      var path := PodBody(r, p);
      assert Lists(last, p, path) <==> p in OwnersOf(s, path);
      if path in s.values {
        var m :| m in OwnersOf(s, path);
        assert Lists(last, m, path);
      }
    }
    forall f | f in FIELDS
      ensures ReadField(s, f) == LastFieldValue(ws, f)
    {
      var path := Controller(f);
      assert Lists(last, CONTROLLER, path) <==> CONTROLLER in OwnersOf(s, path);
      if path in s.values {
        var m :| m in OwnersOf(s, path);
        assert Lists(last, m, path);
      }
    }
  }

  const CONDITIONS: set<ConditionType> := {Completed, DeadlineExceeded, ServiceAccountMissing}

  function ReadTime(s: Managed, f: Field): Option<int> {
    var p := Controller(f);
    if p in s.values && s.values[p].VTime? then Some(s.values[p].time) else None
  }

  function ReadCondition(s: Managed, c: ConditionType): Option<Reason> {
    var p := Controller(FCondition(c));
    if p in s.values && s.values[p].VReason? then Some(s.values[p].reason) else None
  }

  /** The controller's part of the object as a reader decodes it. */
  function ReadStatus(s: Managed): ControllerStatus {
    var phase, summary := Controller(FPhase), Controller(FSummary);
    ControllerStatus(
      if phase in s.values && s.values[phase].VPhase? then s.values[phase].phase else Unset,
      ReadTime(s, FStart),
      ReadTime(s, FCompletion),
      if summary in s.values && s.values[summary].VSummary? then Some(s.values[summary].summary) else None,
      map c | c in CONDITIONS && ReadCondition(s, c).Some? :: ReadCondition(s, c).value)
  }

  function LastStatus(ws: seq<Write>): ControllerStatus {
    var last := LastWrites(ws);
    if CONTROLLER in last && last[CONTROLLER].ControllerWrite? then last[CONTROLLER].status else INITIAL_STATUS
  }

  lemma FieldsReadBack(s: Managed, st: ControllerStatus)
    requires forall f :: f in FIELDS ==> ReadField(s, f) == FieldValue(st, f)
    ensures ReadStatus(s) == st
  {
    assert FPhase in FIELDS && FStart in FIELDS && FCompletion in FIELDS && FSummary in FIELDS;
    forall c: ConditionType
      ensures c in CONDITIONS && (ReadCondition(s, c) == if c in st.conditions then Some(st.conditions[c]) else None)
    {
      assert FCondition(c) in FIELDS by { match c case Completed => case DeadlineExceeded => case ServiceAccountMissing => }
      assert ReadField(s, FCondition(c)) == FieldValue(st, FCondition(c));
    }
    assert ReadStatus(s).conditions == st.conditions;
  }

  /** Whoever reads the object decodes exactly the status the controller applied last,
      whatever pods have written before and since. */
  lemma StatusReadsBack(ws: seq<Write>)
    requires forall w :: w in ws ==> Genuine(w)
    ensures RunWrites(ws).Some? && ReadStatus(RunWrites(ws).value) == LastStatus(ws)
  {
    hide FieldValue, ReadField, ReadStatus;
    EveryoneReadsTheirLastWrite(ws);
    LastWritesKeyed(ws);
    forall f | f in FIELDS
      ensures LastFieldValue(ws, f) == FieldValue(LastStatus(ws), f)
    {
      NothingInitially(f);
    }
    FieldsReadBack(RunWrites(ws).value, LastStatus(ws));
  }

  lemma NothingInitially(f: Field)
    ensures FieldValue(INITIAL_STATUS, f) == None
  {
  }

  /** Runner and pod items exist exactly as far as someone's last report is for them, each
      under its own name. */
  lemma ItemsAreNamed(ws: seq<Write>, r: string, p: string)
    requires forall w :: w in ws ==> Genuine(w)
    ensures RunWrites(ws).Some?
    ensures var values := RunWrites(ws).value.values;
      && (PodKey(r, p) in values <==> LastReport(ws, r, p).Some?)
      && (PodKey(r, p) in values ==> values[PodKey(r, p)] == VName(p))
      && (RunnerKey(r) in values <==> exists q :: LastReport(ws, r, q).Some?)
      && (RunnerKey(r) in values ==> values[RunnerKey(r)] == VName(r))
  {
    WritesNeverConflict(ws);
    LastWritesKeyed(ws);
    var s, last := RunWrites(ws).value, LastWrites(ws);
    assert Lists(last, p, PodKey(r, p)) <==> LastReport(ws, r, p).Some?;
    if PodKey(r, p) in s.values {
      var m :| m in OwnersOf(s, PodKey(r, p));
      assert Lists(last, m, PodKey(r, p));
    }
    if RunnerKey(r) in s.values {
      var m :| m in OwnersOf(s, RunnerKey(r));
      assert Lists(last, m, RunnerKey(r));
      assert LastReport(ws, r, m).Some?;
    }
    if q :| LastReport(ws, r, q).Some? {
      assert Lists(last, q, RunnerKey(r));
    }
  }

  /** `doc` gives the field another value than manager `m`'s last document does. */
  predicate Disagrees(last: map<string, Write>, m: string, doc: Doc, p: Path) {
    Lists(last, m, p) && p in doc && doc[p] != DocOf(last[m])[p]
  }

  lemma RefusedAt(s: Managed, last: map<string, Write>, mgr: string, doc: Doc, p: Path)
    requires Reflects(s, last)
    ensures ConflictAt(s, mgr, doc, p) <==> exists m :: m != mgr && Disagrees(last, m, doc, p)
  {
    hide DocOf, WellOwned;
    if ConflictAt(s, mgr, doc, p) {
      var m :| m in OwnersOf(s, p) - {mgr};
      assert Lists(last, m, p);
      assert Disagrees(last, m, doc, p);
    }
    if m :| m != mgr && Disagrees(last, m, doc, p) {
      assert m in OwnersOf(s, p) - {mgr};
    }
  }

  /** An apply is refused exactly when it would give a field another value than the one
      some other manager's last document gives it. */
  lemma RefusedExactly(s: Managed, last: map<string, Write>, mgr: string, doc: Doc)
    requires Reflects(s, last)
    ensures Conflicts(s, mgr, doc) <==> exists m, p :: m != mgr && Disagrees(last, m, doc, p)
  {
    hide Reflects, ConflictAt, Disagrees;
    if Conflicts(s, mgr, doc) {
      var p :| ConflictAt(s, mgr, doc, p);
      RefusedAt(s, last, mgr, doc, p);
    }
    if m, p :| m != mgr && Disagrees(last, m, doc, p) {
      RefusedAt(s, last, mgr, doc, p);
    }
  }

  // ------------------------------------------------------------- the report

  lemma ApplyTwice(s: Managed, mgr: string, doc: Doc)
    requires WellOwned(s) && !Conflicts(s, mgr, doc)
    ensures var t := Apply(s, mgr, doc); !Conflicts(t, mgr, doc) && Apply(t, mgr, doc) == t
  {
    var t := Apply(s, mgr, doc);
    var u := Apply(t, mgr, doc);
    ApplyWellOwned(s, mgr, doc);
    ApplyWellOwned(t, mgr, doc);
    forall p
      ensures OwnersOf(u, p) == OwnersOf(t, p)
      ensures p in u.values && p in t.values ==> u.values[p] == t.values[p]
    {
      ApplyAt(s, mgr, doc, p);
      ApplyAt(t, mgr, doc, p);
    }
    SameFields(u, t);
  }

  /** What becomes of one call. */
  datatype Delivery = Lost | Unanswered | Answered

  /** The status subresource as seen through an unreliable connection. */
  class StatusServer {
    var status: Managed

    ghost predicate Valid()
      reads this
    {
      WellOwned(status)
    }

    constructor ()
      ensures Valid() && status == EMPTY
    {
      status := EMPTY;
    }

    /** A call may be lost on the way in, or be carried out and lose its response. */
    method TryApply(w: Write, fate: Delivery) returns (ok: bool)
      requires Valid()
      modifies this
      ensures Valid()
      ensures status == if fate != Lost && !Conflicts(old(status), Manager(w), DocOf(w))
                        then Apply(old(status), Manager(w), DocOf(w)) else old(status)
      ensures ok <==> fate == Answered && !Conflicts(old(status), Manager(w), DocOf(w))
    {
      ok := false;
      if fate != Lost && (forall p | p in DocOf(w) :: !ConflictAt(status, Manager(w), DocOf(w), p)) {
        ApplyWellOwned(status, Manager(w), DocOf(w));
        status := Apply(status, Manager(w), DocOf(w));
        ok := fate == Answered;
      }
    }
  }

  const REPORT_STEPS := 8

  /** Applies one pod's entry, retrying on any error; `tries` is how many the backoff allows
      and `fate(k)` what becomes of try k. It succeeds exactly when one of them is answered;
      the entry lands exactly when one is carried out; and however often that happens, the
      status changes at most once. */
  method Report(server: StatusServer, runner: string, pod: string, body: PodResult, tries: nat, fate: nat -> Delivery)
    returns (ok: bool)
    requires server.Valid() && 0 < tries <= REPORT_STEPS
    modifies server
    ensures server.Valid()
    ensures ok <==> !Conflicts(old(server.status), pod, DocOf(PodWrite(runner, pod, body)))
                    && exists k: nat :: k < tries && fate(k) == Answered
    ensures server.status ==
      if !Conflicts(old(server.status), pod, DocOf(PodWrite(runner, pod, body))) && exists k: nat :: k < tries && fate(k) != Lost
      then Apply(old(server.status), pod, DocOf(PodWrite(runner, pod, body))) else old(server.status)
  {
    ghost var before := server.status;
    var w := PodWrite(runner, pod, body);
    ghost var refused := Conflicts(before, pod, DocOf(w));
    ok := false;
    var step: nat := 0;
    while step < tries && !ok
      invariant server.Valid() && step <= tries
      invariant server.status == if !refused && Delivered(fate, step) then Apply(before, pod, DocOf(w)) else before
      invariant ok <==> !refused && step > 0 && fate(step - 1) == Answered
      invariant !refused ==> forall k: nat :: k < step - 1 ==> fate(k) != Answered
      decreases tries - step, !ok
    {
      if !refused {
        ApplyTwice(before, pod, DocOf(w));
      }
      DeliveredNext(fate, step);
      ok := server.TryApply(w, fate(step));
      step := step + 1;
    }
    if ok {
      assert Delivered(fate, step) && fate(step - 1) != Lost;
    }
  }

  /** One of the first `n` tries was carried out. */
  ghost predicate Delivered(fate: nat -> Delivery, n: nat) {
    exists k: nat :: k < n && fate(k) != Lost
  }

  lemma DeliveredNext(fate: nat -> Delivery, n: nat)
    ensures Delivered(fate, n + 1) <==> Delivered(fate, n) || fate(n) != Lost
  {
  }
}
