/** Planning a replay (internal/replay/plan.go). */
module Plan {
  import opened Text
  import opened Seqs
  import opened Events
  import opened Json
  import opened MemoryStore
  import opened Reducer
  import opened Cluster
  import opened Sanitize

  datatype PlanObject = PlanObject(
    namespace: string, name: string, kind: string, order: nat, body: Fields, warnings: seq<Warning>)

  datatype Excluded = Excluded(namespace: string, name: string, kind: string, reason: Reason)

  /** What decoding a payload into an object gives. */
  datatype Decoded = Object(o: Fields) | Undecodable(error: string)

  /** One call's arguments, with the JSON decoder as a parameter. */
  datatype Request = Request(sourceNS: string, targetNS: string, pol: Policy, decode: string -> Decoded)

  // ---------------------------------------------------------------- one object

  /** `meta`: the object with a metadata map. */
  function WithMeta(o: Fields): Fields {
    if MapAt(o, "metadata").Some? then o else o["metadata" := Obj(map[])]
  }

  function Meta(o: Fields): Fields { MapAt(o, "metadata").GetOr(map[]) }

  function Preferred(s: string, fallback: string): string { if s != "" then s else fallback }

  function KindOf(o: Fields, fallback: string): string { Preferred(StringAt(o, "kind"), fallback) }

  function NameOf(o: Fields, fallback: string): string { Preferred(StringAt(Meta(o), "name"), fallback) }

  function NamespaceOf(o: Fields, fallback: string): string { Preferred(StringAt(Meta(o), "namespace"), fallback) }

  function OrderFor(kind: string): nat { if kind == "Namespace" then 0 else 1 }

  function RemapSpec(o: Fields, targetNS: string): Fields {
    match MapAt(o, "spec")
    case None => o
    case Some(spec) => if "namespace" in spec then o["spec" := Obj(spec["namespace" := Str(targetNS)])] else o
  }

  function Mapped(clean: Fields, namespace: string, targetNS: string): Fields {
    if namespace == "" then clean
    else
      var o := WithMeta(clean);
      if targetNS != "" then RemapSpec(o["metadata" := Obj(Meta(o)["namespace" := Str(targetNS)])], targetNS)
      else o["metadata" := Obj(Meta(o) - {"namespace"})]
  }

  function EffectiveNS(namespace: string, targetNS: string): string {
    if namespace == "" then "" else if targetNS != "" then targetNS else namespace
  }

  /** What the planner thinks of one object, other objects aside. */
  datatype Judgement = Bad(error: string) | Out(ex: Excluded) | In(po: PlanObject, namespace: string)

  function Judge(q: Request, st: ObjectState): Judgement {
    match q.decode(st.payload)
    case Undecodable(error) => Bad(error)
    case Object(o) =>
      var kind := KindOf(o, st.kind);
      var p := WithMeta(o);
      var name, namespace := NameOf(p, st.name), NamespaceOf(p, st.namespace);
      Verdict(q, kind, name, namespace, ExcludeReason(p, kind, name, q.pol),
              Sanitized(p, kind, q.pol), Warnings(p, kind, q.pol))
  }

  function Verdict(q: Request, kind: string, name: string, namespace: string, reason: Option<Reason>,
                   clean: Fields, warnings: seq<Warning>): Judgement
  {
    if q.sourceNS != "" && namespace != "" && namespace != q.sourceNS then
      Out(Excluded(namespace, name, kind, OutsideSourceNamespace))
    else if reason.Some? then Out(Excluded(namespace, name, kind, reason.value))
    else
      In(PlanObject(EffectiveNS(namespace, q.targetNS), name, kind, OrderFor(kind),
                    Mapped(clean, namespace, q.targetNS), warnings),
         namespace)
  }

  // ---------------------------------------------------------------- object after object

  datatype Draft = Draft(
    objects: seq<PlanObject>, excluded: seq<Excluded>, warnings: seq<Warning>, mapped: bool, seen: set<string>)

  const EMPTY: Draft := Draft([], [], [], false, {})

  function KeyOfTarget(po: PlanObject): string { po.namespace + ['/'] + po.kind + ['/'] + po.name }

  /** Mapping may collapse namespaces: no source, one target, a namespaced object. */
  predicate Collapses(q: Request, po: PlanObject) { po.namespace != "" && q.sourceNS == "" && q.targetNS != "" }

  function ServiceExclusion(ex: Excluded): seq<Warning> {
    if ex.kind == "Service" && ex.reason != OutsideSourceNamespace
    then [ServiceExcluded(ex.namespace, ex.name, ex.reason)] else []
  }

  function MappingWarning(q: Request): Warning {
    NamespaceMapping(if q.sourceNS == "" then "*" else q.sourceNS, q.targetNS)
  }

  function CollisionWarning(q: Request, po: PlanObject): Warning {
    CollisionExcluded(po.kind, po.namespace, po.name, q.targetNS)
  }

  /** `mapNamespace` warns once. */
  function Announce(q: Request, d: Draft, namespace: string): Draft {
    if namespace != "" && q.targetNS != "" && !d.mapped
    then d.(warnings := d.warnings + [MappingWarning(q)], mapped := true)
    else d
  }

  function Place(q: Request, d: Draft, po: PlanObject): Draft {
    if !Collapses(q, po) then d.(objects := d.objects + [po])
    else if KeyOfTarget(po) in d.seen then
      d.(excluded := d.excluded + [Excluded(po.namespace, po.name, po.kind, CollisionAfterMapping)],
         warnings := d.warnings + [CollisionWarning(q, po)])
    else d.(objects := d.objects + [po], seen := d.seen + {KeyOfTarget(po)})
  }

  function PlanStep(q: Request, d: Draft, st: ObjectState, v: Judgement): Draft {
    match v
    case Bad(error) => d.(warnings := d.warnings + [CannotDecode(st.kind, st.name, error)])
    case Out(ex) => d.(excluded := d.excluded + [ex], warnings := d.warnings + ServiceExclusion(ex))
    case In(po, namespace) => Place(q, Announce(q, d, namespace), po)
  }

  /** The loop, for any way of judging the single objects. */
  function PlanAll(q: Request, judge: ObjectState -> Judgement, states: seq<ObjectState>): Draft {
    if states == [] then EMPTY
    else
      var st := states[|states| - 1];
      PlanStep(q, PlanAll(q, judge, states[..|states| - 1]), st, judge(st))
  }

  function Judging(q: Request): ObjectState -> Judgement { st => Judge(q, st) }

  // ---------------------------------------------------------------- the code

  /** `mapNamespace`, `remapSpecNamespace`. */
  method MapNamespace(payload: Payload, namespace: string, q: Request, mapped: bool, warnings: seq<Warning>)
      returns (effective: string, mapped': bool, warnings': seq<Warning>)
    modifies payload
    ensures payload.root == Mapped(old(payload.root), namespace, q.targetNS)
    ensures effective == EffectiveNS(namespace, q.targetNS)
    ensures forall d: Draft :: d.mapped == mapped && d.warnings == warnings ==>
              Announce(q, d, namespace) == d.(mapped := mapped', warnings := warnings')
  {
    mapped', warnings' := mapped, warnings;
    if namespace == "" { return "", mapped', warnings'; }
    payload.root := WithMeta(payload.root);
    var m := Meta(payload.root);
    if q.targetNS != "" {
      payload.root := payload.root["metadata" := Obj(m["namespace" := Str(q.targetNS)])];
      var spec := MapAt(payload.root, "spec");
      if spec.Some? && "namespace" in spec.value {
        payload.root := payload.root["spec" := Obj(spec.value["namespace" := Str(q.targetNS)])];
      }
      if !mapped {
        warnings' := warnings + [NamespaceMapping(if q.sourceNS == "" then "*" else q.sourceNS, q.targetNS)];
        mapped' := true;
      }
      return q.targetNS, mapped', warnings';
    }
    payload.root := payload.root["metadata" := Obj(m - {"namespace"})];
    return namespace, mapped', warnings';
  }

  predicate InPlanOrder(a: PlanObject, b: PlanObject) {
    if a.order != b.order then a.order < b.order
    else if a.namespace != b.namespace then Before(a.namespace, b.namespace)
    else AtMost(a.name, b.name)
  }

  lemma PlanOrderIsTotal()
    ensures TotalOrder(InPlanOrder)
  {
    forall a, b ensures InPlanOrder(a, b) || InPlanOrder(b, a) {
      BeforeIsTotal(a.namespace, b.namespace);
      BeforeIsTotal(a.name, b.name);
    }
    forall a, b, c | InPlanOrder(a, b) && InPlanOrder(b, c) ensures InPlanOrder(a, c) {
      PlanOrderIsTransitive(a, b, c);
    }
  }

  lemma PlanOrderIsTransitive(a: PlanObject, b: PlanObject, c: PlanObject)
    requires InPlanOrder(a, b) && InPlanOrder(b, c)
    ensures InPlanOrder(a, c)
  {
    if a.order == b.order == c.order {
      if a.namespace != b.namespace || b.namespace != c.namespace {
        ThroughMiddle(a.namespace, b.namespace, c.namespace);
      } else if a.name != b.name && b.name != c.name {
        BeforeIsTransitive(a.name, b.name, c.name);
      }
    }
  }

  lemma {:induction false} PlanNext(q: Request, judge: ObjectState -> Judgement, states: seq<ObjectState>, i: nat)
    requires i < |states|
    ensures PlanAll(q, judge, states[..i + 1]) ==
              PlanStep(q, PlanAll(q, judge, states[..i]), states[i], judge(states[i]))
  {
    assert states[..i + 1][..i] == states[..i];
  }

  /** The body of the loop over the states. */
  method PlanOne(q: Request, st: ObjectState, d: Draft) returns (d': Draft)
    ensures d' == PlanStep(q, d, st, Judge(q, st))
  {
    var dec := q.decode(st.payload);
    if dec.Undecodable? {
      return d.(warnings := d.warnings + [CannotDecode(st.kind, st.name, dec.error)]);
    }
    var payload := new Payload(dec.o);
    var kind := KindOf(payload.root, st.kind);
    payload.root := WithMeta(payload.root);
    var name := NameOf(payload.root, st.name);
    var namespace := NamespaceOf(payload.root, st.namespace);
    if q.sourceNS != "" && namespace != "" && namespace != q.sourceNS {
      return d.(excluded := d.excluded + [Excluded(namespace, name, kind, OutsideSourceNamespace)]);
    }
    var reason := ExcludeReason(payload.root, kind, name, q.pol);
    if reason.Some? {
      ReasonIsNotOutside(payload.root, kind, name, q.pol);
      d' := d.(excluded := d.excluded + [Excluded(namespace, name, kind, reason.value)]);
      if kind == "Service" {
        d' := d'.(warnings := d'.warnings + [ServiceExcluded(namespace, name, reason.value)]);
      }
      return;
    }
    var warnings := payload.SanitizeObject(kind, q.pol);
    var effective, mapped, all := MapNamespace(payload, namespace, q, d.mapped, d.warnings);
    d' := PlaceOne(q, d.(mapped := mapped, warnings := all),
                   PlanObject(effective, name, kind, OrderFor(kind), payload.root, warnings));
  }

  lemma ReasonIsNotOutside(o: Fields, kind: string, name: string, pol: Policy)
    ensures ExcludeReason(o, kind, name, pol) != Some(OutsideSourceNamespace)
  {
  }

  /** The collision check at the end of the loop's body. */
  method PlaceOne(q: Request, d: Draft, po: PlanObject) returns (d': Draft)
    ensures d' == Place(q, d, po)
  {
    d' := d;
    if po.namespace != "" && q.sourceNS == "" && q.targetNS != "" {
      var key := po.namespace + ['/'] + po.kind + ['/'] + po.name;
      if key in d'.seen {
        d' := d'.(excluded := d'.excluded + [Excluded(po.namespace, po.name, po.kind, CollisionAfterMapping)]);
        d' := d'.(warnings := d'.warnings + [CollisionWarning(q, po)]);
        return;
      }
      d' := d'.(seen := d'.seen + {key});
    }
    d' := d'.(objects := d'.objects + [po]);
  }

  method SortObjects(found: seq<PlanObject>) returns (objects: seq<PlanObject>)
    ensures multiset(objects) == multiset(found) && Sorted(objects, InPlanOrder)
  {
    objects := SortBy(found, InPlanOrder);
    PlanOrderIsTotal();
    SortSorted(found, InPlanOrder);
    SortMultiset(found, InPlanOrder);
  }

  datatype ReplayPlan = ReplayPlan(
    clusterId: string, snapshotId: string, objects: seq<PlanObject>, warnings: seq<Warning>,
    excluded: seq<Excluded>, coverageComplete: bool, status: string)

  datatype SnapshotRef = SnapshotRef(id: string, clusterId: string, at: Time)

  datatype Planning = Ok(plan: ReplayPlan) | Refused(why: Refusal)

  datatype Refusal = SnapshotNotFound | IncompleteCoverage

  /** `lookupSnapshot`: the first snapshot of that ID. */
  function FindSnapshot(snaps: seq<SnapshotRef>, id: string): (r: Option<SnapshotRef>)
    ensures r.None? <==> forall s :: s in snaps ==> s.id != id
    ensures r.Some? ==> r.value in snaps && r.value.id == id
  {
    if snaps == [] then None else if snaps[0].id == id then Some(snaps[0]) else FindSnapshot(snaps[1..], id)
  }

  /** The states a plan is made from: all objects of the cluster at the snapshot's instant. */
  ghost predicate StatesAt(states: seq<ObjectState>, log: seq<Record>, snap: SnapshotRef) {
    && (forall st :: st in states <==> Present(log, snap.clusterId, snap.at, st))
    && Distinct(states) && Sorted(states, InStateOrder)
  }

  method PlanStates(q: Request, states: seq<ObjectState>) returns (d: Draft)
    ensures d == PlanAll(q, Judging(q), states)
  {
    d := EMPTY;
    for i := 0 to |states|
      invariant d == PlanAll(q, Judging(q), states[..i])
    {
      PlanNext(q, Judging(q), states, i);
      d := PlanOne(q, states[i], d);
    }
    assert states[..|states|] == states;
  }

  /** The plan made of `states`, for the snapshot `snap`. */
  ghost predicate PlanOf(plan: ReplayPlan, log: seq<Record>, snap: SnapshotRef, q: Request, states: seq<ObjectState>) {
    var d := PlanAll(q, Judging(q), states);
    && StatesAt(states, log, snap)
    && multiset(plan.objects) == multiset(d.objects) && Sorted(plan.objects, InPlanOrder)
    && plan == ReplayPlan(snap.clusterId, snap.id, plan.objects, d.warnings, d.excluded,
                          Complete(log, snap.clusterId, snap.at), "planned")
  }

  /** `Planner.Plan`. */
  method MakePlan(store: Store, snaps: seq<SnapshotRef>, snapshotId: string, q: Request)
      returns (r: Planning, ghost states: seq<ObjectState>)
    requires store.Valid()
    ensures var found := FindSnapshot(snaps, snapshotId);
            && (r == Refused(SnapshotNotFound) <==> found.None?)
            && (r == Refused(IncompleteCoverage) <==>
                found.Some? && !Complete(store.log, found.value.clusterId, found.value.at) && !q.pol.allowGaps)
            && (r.Refused? ==> r == Refused(SnapshotNotFound) || r == Refused(IncompleteCoverage))
    ensures r.Ok? ==> PlanOf(r.plan, store.log, FindSnapshot(snaps, snapshotId).value, q, states)
  {
    states := [];
    var snap := FindSnapshot(snaps, snapshotId);
    if snap.None? { return Refused(SnapshotNotFound), states; }
    var all, complete := StateAt(store, snap.value.clusterId, snap.value.at);
    states := all;
    if !complete && !q.pol.allowGaps {
      return Refused(IncompleteCoverage), states;
    }
    var d := PlanStates(q, all);
    var objects := SortObjects(d.objects);
    r := Ok(ReplayPlan(snap.value.clusterId, snapshotId, objects, d.warnings, d.excluded, complete, "planned"));
  }
}
