/** What a replay plan holds: accounting, collisions, order, namespaces, and that it does not
    depend on anything the diff ignores. */
module PlanLaws {
  import opened Text
  import opened Seqs
  import opened Json
  import opened Diff
  import opened Patch
  import opened Reducer
  import opened Sanitize
  import opened SanitizeLaws
  import opened Plan

  // ---------------------------------------------------------------- accounting

  /** Where one reconstructed object ends up. */
  datatype Outcome = Planned(po: PlanObject) | LeftOut(ex: Excluded) | NotDecoded

  function OutcomeOf(q: Request, seen: set<string>, v: Judgement): Outcome {
    match v
    case Bad(_) => NotDecoded
    case Out(ex) => LeftOut(ex)
    case In(po, _) =>
      if Collapses(q, po) && KeyOfTarget(po) in seen
      then LeftOut(Excluded(po.namespace, po.name, po.kind, CollisionAfterMapping)) else Planned(po)
  }

  /** The outcome of the `i`-th object. */
  function OutcomeAt(q: Request, judge: ObjectState -> Judgement, states: seq<ObjectState>, i: nat): Outcome
    requires i < |states|
  {
    OutcomeOf(q, PlanAll(q, judge, states[..i]).seen, judge(states[i]))
  }

  function Outcomes(q: Request, judge: ObjectState -> Judgement, states: seq<ObjectState>): seq<Outcome> {
    seq(|states|, i requires 0 <= i < |states| => OutcomeAt(q, judge, states, i))
  }

  function PlannedIn(os: seq<Outcome>): seq<PlanObject> {
    if os == [] then [] else PlannedIn(os[..|os| - 1]) + if os[|os| - 1].Planned? then [os[|os| - 1].po] else []
  }

  function LeftOutIn(os: seq<Outcome>): seq<Excluded> {
    if os == [] then [] else LeftOutIn(os[..|os| - 1]) + if os[|os| - 1].LeftOut? then [os[|os| - 1].ex] else []
  }

  function NotDecodedIn(os: seq<Outcome>): nat {
    if os == [] then 0 else NotDecodedIn(os[..|os| - 1]) + if os[|os| - 1].NotDecoded? then 1 else 0
  }

  lemma OutcomesInit(q: Request, judge: ObjectState -> Judgement, states: seq<ObjectState>)
    requires states != []
    ensures Outcomes(q, judge, states)[..|states| - 1] == Outcomes(q, judge, states[..|states| - 1])
  {
    var n := |states| - 1;
    forall i | 0 <= i < n ensures OutcomeAt(q, judge, states, i) == OutcomeAt(q, judge, states[..n], i) {
      assert states[..n][..i] == states[..i];
    }
  }

  lemma StepOutcome(q: Request, d: Draft, st: ObjectState, v: Judgement)
    ensures var d', out := PlanStep(q, d, st, v), OutcomeOf(q, d.seen, v);
            && d'.objects == d.objects + (if out.Planned? then [out.po] else [])
            && d'.excluded == d.excluded + (if out.LeftOut? then [out.ex] else [])
            && d'.seen == d.seen + (if out.Planned? && Collapses(q, out.po) then {KeyOfTarget(out.po)} else {})
  {
    assert d.objects + [] == d.objects && d.excluded + [] == d.excluded;
  }

  lemma {:induction false} Counts(os: seq<Outcome>)
    ensures |PlannedIn(os)| + |LeftOutIn(os)| + NotDecodedIn(os) == |os|
  {
    if os != [] { Counts(os[..|os| - 1]); }
  }

  /** Every reconstructed object lands in exactly one of the plan's objects, its exclusions and
      the undecodable ones, in order. */
  lemma {:induction false} Accounting(q: Request, judge: ObjectState -> Judgement, states: seq<ObjectState>)
    ensures var d, os := PlanAll(q, judge, states), Outcomes(q, judge, states);
            && d.objects == PlannedIn(os) && d.excluded == LeftOutIn(os)
            && |d.objects| + |d.excluded| + NotDecodedIn(os) == |states|
  {
    Counts(Outcomes(q, judge, states));
    if states != [] {
      var n := |states| - 1;
      Accounting(q, judge, states[..n]);
      OutcomesInit(q, judge, states);
      StepOutcome(q, PlanAll(q, judge, states[..n]), states[n], judge(states[n]));
    }
  }

  // ---------------------------------------------------------------- collisions

  ghost predicate Claims(q: Request, judge: ObjectState -> Judgement, states: seq<ObjectState>, i: nat, key: string)
    requires i < |states|
  {
    var out := OutcomeAt(q, judge, states, i);
    out.Planned? && Collapses(q, out.po) && KeyOfTarget(out.po) == key
  }

  /** The remembered keys are those of the objects already planned. */
  lemma {:induction false} SeenMeaning(q: Request, judge: ObjectState -> Judgement, states: seq<ObjectState>, n: nat,
                                       key: string)
    requires n <= |states|
    ensures key in PlanAll(q, judge, states[..n]).seen <==> exists i: nat :: i < n && Claims(q, judge, states, i, key)
  {
    if n > 0 {
      var m := n - 1;
      SeenMeaning(q, judge, states, m, key);
      assert states[..n][..m] == states[..m];
      StepOutcome(q, PlanAll(q, judge, states[..m]), states[m], judge(states[m]));
      assert OutcomeAt(q, judge, states, m) == OutcomeOf(q, PlanAll(q, judge, states[..m]).seen, judge(states[m]));
      if key in PlanAll(q, judge, states[..n]).seen && key !in PlanAll(q, judge, states[..m]).seen {
        assert Claims(q, judge, states, m, key);
      }
    }
  }

  /** With no source and a given target namespace, no two namespaced objects of a plan share
      kind and name. */
  lemma NoTwoAlike(q: Request, judge: ObjectState -> Judgement, states: seq<ObjectState>, i: nat, j: nat)
    requires q.sourceNS == "" && q.targetNS != "" && i < j < |states| && Sensible(q, judge)
    requires OutcomeAt(q, judge, states, i).Planned? && OutcomeAt(q, judge, states, j).Planned?
    requires OutcomeAt(q, judge, states, i).po.namespace != "" && OutcomeAt(q, judge, states, j).po.namespace != ""
    ensures OutcomeAt(q, judge, states, i).po.kind != OutcomeAt(q, judge, states, j).po.kind ||
            OutcomeAt(q, judge, states, i).po.name != OutcomeAt(q, judge, states, j).po.name
  {
    var a, b := OutcomeAt(q, judge, states, i).po, OutcomeAt(q, judge, states, j).po;
    SeenMeaning(q, judge, states, j, KeyOfTarget(b));
    assert Claims(q, judge, states, i, KeyOfTarget(a));
  }

  /** What the planner's judgement tells of an object it lets in. */
  ghost predicate Sensible(q: Request, judge: ObjectState -> Judgement) {
    forall st :: judge(st).In? ==> judge(st).po.namespace == EffectiveNS(judge(st).namespace, q.targetNS)
  }

  lemma JudgingIsSensible(q: Request)
    ensures Sensible(q, Judging(q))
  {
  }

  /** The same kind and name, as far as the text that joins them tells. */
  predicate SameSlashed(a: PlanObject, b: PlanObject) { a.kind + ['/'] + a.name == b.kind + ['/'] + b.name }

  predicate TakesPlace(out: Outcome, po: PlanObject) {
    out.Planned? && out.po.namespace != "" && SameSlashed(out.po, po)
  }

  /** An object is left out for a collision exactly when one of the same kind and name has
      already been planned: the first of them wins, and nothing else is lost. */
  lemma CollisionMeaning(q: Request, judge: ObjectState -> Judgement, states: seq<ObjectState>, j: nat)
    requires j < |states| && judge(states[j]).In? && Sensible(q, judge)
    ensures var po := judge(states[j]).po;
            OutcomeAt(q, judge, states, j).LeftOut? <==>
              Collapses(q, po) && exists i: nat :: i < j && TakesPlace(OutcomeAt(q, judge, states, i), po)
  {
    var po := judge(states[j]).po;
    SeenMeaning(q, judge, states, j, KeyOfTarget(po));
    forall i: nat | i < j && Collapses(q, po)
      ensures Claims(q, judge, states, i, KeyOfTarget(po)) <==> TakesPlace(OutcomeAt(q, judge, states, i), po)
    {
      var out := OutcomeAt(q, judge, states, i);
      if out.Planned? && out.po.namespace == po.namespace { SameTarget(out.po, po); }
    }
  }

  lemma SameTarget(a: PlanObject, b: PlanObject)
    requires a.namespace == b.namespace
    ensures KeyOfTarget(a) == KeyOfTarget(b) <==> SameSlashed(a, b)
  {
    var p := a.namespace + ['/'];
    assert KeyOfTarget(a) == p + (a.kind + ['/'] + a.name);
    assert KeyOfTarget(b) == p + (b.kind + ['/'] + b.name);
    assert KeyOfTarget(a)[|p|..] == a.kind + ['/'] + a.name;
    assert KeyOfTarget(b)[|p|..] == b.kind + ['/'] + b.name;
  }

  /** Kinds without '/', as the API server's are, are not mistaken. */
  lemma SlashedIsSame(a: PlanObject, b: PlanObject)
    requires Lacks(a.kind, '/') && Lacks(b.kind, '/')
    ensures SameSlashed(a, b) <==> a.kind == b.kind && a.name == b.name
  {
    if SameSlashed(a, b) { FirstCutIsInjective(a.kind, a.name, b.kind, b.name, '/'); }
  }

  // ---------------------------------------------------------------- the plan's objects

  /** The payload names the namespace, also in its spec where that has one. */
  predicate InNamespace(o: Fields, ns: string) {
    && Lookup(Meta(o), "namespace") == Some(Str(ns))
    && (match MapAt(o, "spec")
        case None => true
        case Some(spec) => "namespace" in spec ==> spec["namespace"] == Str(ns))
  }

  /** An object fit for the plan: filtered, policed, stripped and carried to its namespace. */
  predicate Fit(q: Request, po: PlanObject, namespace: string) {
    && po.order == OrderFor(po.kind)
    && "status" !in po.body
    && (q.sourceNS != "" ==> namespace == "" || namespace == q.sourceNS)
    && po.namespace == EffectiveNS(namespace, q.targetNS)
    && (namespace != "" && q.targetNS != "" ==> po.namespace == q.targetNS && InNamespace(po.body, q.targetNS))
    && (namespace != "" && q.targetNS == "" ==> po.namespace == namespace && "namespace" !in Meta(po.body))
    && MayReplay(po.kind, po.name, q.pol)
  }

  /** The kinds the policy lets through. */
  predicate MayReplay(kind: string, name: string, pol: Policy) {
    && kind != "ServiceAccount" && kind != "VolumeAttachment"
    && (kind == "Secret" ==> pol.includeSecrets && !Contains(name, "-token-"))
    && (IsRbac(kind) ==> pol.includeRoles)
    && (IsJob(kind) ==> pol.includeJobs)
    && (kind == "Pod" ==> pol.includePods)
    && (IsStorage(kind) ==> pol.includePV)
    && (IsWebhook(kind) ==> pol.includeWebhooks)
    && (kind == "CustomResourceDefinition" ==> pol.includeCRDs)
  }

  /** An object is let in exactly when the policy lets its kind through and it is no load
      balancer. */
  lemma ReasonMeaning(o: Fields, kind: string, name: string, pol: Policy)
    ensures ExcludeReason(o, kind, name, pol).None? <==>
            MayReplay(kind, name, pol) && !(kind == "Service" && ServiceType(o) == "LoadBalancer")
  {
    if MayReplay(kind, name, pol) { LetIn(o, kind, name, pol); } else { KeptOut(o, kind, name, pol); }
  }

  lemma KeptOut(o: Fields, kind: string, name: string, pol: Policy)
    requires !MayReplay(kind, name, pol)
    ensures ExcludeReason(o, kind, name, pol).Some?
  {
  }

  lemma LetIn(o: Fields, kind: string, name: string, pol: Policy)
    requires MayReplay(kind, name, pol)
    ensures ExcludeReason(o, kind, name, pol).Some? <==> kind == "Service" && ServiceType(o) == "LoadBalancer"
  {
  }

  lemma MappedIsInNamespace(clean: Fields, namespace: string, targetNS: string)
    requires "status" !in clean
    ensures "status" !in Mapped(clean, namespace, targetNS)
    ensures namespace != "" && targetNS != "" ==> InNamespace(Mapped(clean, namespace, targetNS), targetNS)
    ensures namespace != "" && targetNS == "" ==> "namespace" !in Meta(Mapped(clean, namespace, targetNS))
  {
  }

  lemma JudgedFit(q: Request, st: ObjectState)
    requires Judge(q, st).In?
    ensures Fit(q, Judge(q, st).po, Judge(q, st).namespace)
  {
    var o := q.decode(st.payload).o;
    var p := WithMeta(o);
    var po, namespace := Judge(q, st).po, Judge(q, st).namespace;
    ReasonMeaning(p, po.kind, po.name, q.pol);
    SanitizedAt(p, po.kind, q.pol, "status");
    MappedIsInNamespace(Sanitized(p, po.kind, q.pol), namespace, q.targetNS);
  }

  lemma {:induction false} PlannedFrom(q: Request, judge: ObjectState -> Judgement, states: seq<ObjectState>,
                                       po: PlanObject)
    requires po in PlanAll(q, judge, states).objects
    ensures exists st :: st in states && judge(st).In? && judge(st).po == po
  {
    var n := |states| - 1;
    var d, st := PlanAll(q, judge, states[..n]), states[n];
    StepOutcome(q, d, st, judge(st));
    if po in d.objects {
      PlannedFrom(q, judge, states[..n], po);
      var s :| s in states[..n] && judge(s).In? && judge(s).po == po;
      assert s in states;
    } else {
      assert st in states && judge(st).In? && judge(st).po == po;
    }
  }

  /** Every object of a plan is fit, and in the sorted plan the Namespaces come first. */
  lemma {:induction false} PlanIsFit(q: Request, states: seq<ObjectState>, objects: seq<PlanObject>)
    requires multiset(objects) == multiset(PlanAll(q, Judging(q), states).objects) && Sorted(objects, InPlanOrder)
    ensures forall po :: po in objects ==> exists namespace :: Fit(q, po, namespace)
    ensures forall i, j :: 0 <= i < j < |objects| && objects[j].kind == "Namespace" ==> objects[i].kind == "Namespace"
  {
    forall po | po in objects ensures exists namespace :: Fit(q, po, namespace) {
      assert po in multiset(objects);
      PlannedFrom(q, Judging(q), states, po);
      var st :| st in states && Judging(q)(st).In? && Judging(q)(st).po == po;
      JudgedFit(q, st);
    }
    forall i, j | 0 <= i < j < |objects| && objects[j].kind == "Namespace" ensures objects[i].kind == "Namespace" {
      assert InPlanOrder(objects[i], objects[j]);
      assert objects[i] in objects && objects[j] in objects;
    }
  }

  // ---------------------------------------------------------------- what the diff ignores changes no plan

  /** Equal but for fields the diff does not report. */
  ghost predicate Alike(x: Fields, y: Fields) {
    DiffRel([], Obj(x), Obj(y)) == [] && Lookup(x, "") == Lookup(y, "")
  }

  lemma AlikeEssence(x: Fields, y: Fields)
    ensures Alike(x, y) <==> EssenceOf(x) == EssenceOf(y)
  {
    SameEssence(Obj(x), Obj(y));
    EssenceAt(x, "");
    EssenceAt(y, "");
  }

  lemma AlikeMembers(x: Fields, y: Fields, k: string)
    requires EssenceOf(x) == EssenceOf(y)
    ensures k != "metadata" && k != "status" ==> Lookup(x, k) == Lookup(y, k)
    ensures MapAt(x, "metadata").Some? <==> MapAt(y, "metadata").Some?
    ensures MapAt(x, "metadata").Some? ==> Strip(true, META, x["metadata"]) == Strip(true, META, y["metadata"])
  {
    EssenceAt(x, k);
    EssenceAt(y, k);
    EssenceAt(x, "metadata");
    EssenceAt(y, "metadata");
    if "metadata" in x { StripKind(true, META, x["metadata"]); }
    if "metadata" in y { StripKind(true, META, y["metadata"]); }
  }

  lemma EssenceWithMeta(x: Fields, k: string)
    ensures Lookup(EssenceOf(WithMeta(x)), k) ==
            if k == "metadata" && MapAt(x, "metadata").None? then Some(Strip(true, META, Obj(map[])))
            else Lookup(EssenceOf(x), k)
  {
    EssenceAt(WithMeta(x), k);
    EssenceAt(x, k);
  }

  lemma WithMetaAlike(x: Fields, y: Fields)
    requires EssenceOf(x) == EssenceOf(y)
    ensures EssenceOf(WithMeta(x)) == EssenceOf(WithMeta(y))
  {
    var a, b := EssenceOf(WithMeta(x)), EssenceOf(WithMeta(y));
    AlikeMembers(x, y, "");
    forall k ensures Lookup(a, k) == Lookup(b, k) {
      EssenceWithMeta(x, k);
      EssenceWithMeta(y, k);
    }
    SameMaps(a, b);
  }

  lemma MetaMember(x: Fields, y: Fields, f: string)
    requires EssenceOf(x) == EssenceOf(y)
    requires f !in METADATA_IGNORE_KEYS && f != "annotations"
    ensures StringAt(Meta(x), f) == StringAt(Meta(y), f)
  {
    AlikeMembers(x, y, "");
    if MapAt(x, "metadata").Some? {
      StripMetadataMember(x["metadata"], f);
      StripMetadataMember(y["metadata"], f);
      assert Lookup(Meta(x), f) == Lookup(Meta(y), f);
    }
  }

  lemma SpecAlike(a: Fields, b: Fields)
    requires EssenceOf(a) == EssenceOf(b)
    ensures ServiceType(a) == ServiceType(b)
  {
    AlikeMembers(a, b, "spec");
    assert MapAt(a, "spec") == MapAt(b, "spec");
  }

  lemma ReasonAlike(a: Fields, b: Fields, kind: string, name: string, pol: Policy)
    requires ServiceType(a) == ServiceType(b)
    ensures ExcludeReason(a, kind, name, pol) == ExcludeReason(b, kind, name, pol)
  {
  }

  lemma CleanAlike(a: Fields, b: Fields, kind: string, pol: Policy)
    requires EssenceOf(a) == EssenceOf(b)
    ensures Sanitized(a, kind, pol) == Sanitized(b, kind, pol) && Warnings(a, kind, pol) == Warnings(b, kind, pol)
  {
    SanitizeOfEssence(a, kind, pol);
    SanitizeOfEssence(b, kind, pol);
    WarningsOfEssence(a, kind, pol);
    WarningsOfEssence(b, kind, pol);
  }

  lemma KindAlike(x: Fields, y: Fields, fallback: string)
    requires EssenceOf(x) == EssenceOf(y)
    ensures KindOf(x, fallback) == KindOf(y, fallback)
  {
    AlikeMembers(x, y, "kind");
  }

  /** The planner judges alike two objects the diff reports no change between. */
  lemma JudgeIgnoresNoise(q: Request, s: ObjectState, t: ObjectState)
    requires NoReportedChange(q, s, t)
    ensures Judge(q, s) == Judge(q, t)
  {
    var x, y := q.decode(s.payload).o, q.decode(t.payload).o;
    AlikeEssence(x, y);
    WithMetaAlike(x, y);
    KindAlike(x, y, s.kind);
    JudgedAlike(q, s, t, x, y);
  }

  lemma JudgedAlike(q: Request, s: ObjectState, t: ObjectState, x: Fields, y: Fields)
    requires s.kind == t.kind && s.name == t.name && s.namespace == t.namespace
    requires q.decode(s.payload) == Object(x) && q.decode(t.payload) == Object(y)
    requires EssenceOf(WithMeta(x)) == EssenceOf(WithMeta(y)) && KindOf(x, s.kind) == KindOf(y, t.kind)
    ensures Judge(q, s) == Judge(q, t)
  {
    var a, b := WithMeta(x), WithMeta(y);
    MetaMember(a, b, "name");
    MetaMember(a, b, "namespace");
    SpecAlike(a, b);
    var kind, name := KindOf(x, s.kind), NameOf(a, s.name);
    ReasonAlike(a, b, kind, name, q.pol);
    CleanAlike(a, b, kind, q.pol);
    var reason := ExcludeReason(a, kind, name, q.pol);
    var clean, warnings := Sanitized(a, kind, q.pol), Warnings(a, kind, q.pol);
  }

  ghost predicate NoReportedChange(q: Request, s: ObjectState, t: ObjectState) {
    && s.kind == t.kind && s.name == t.name && s.namespace == t.namespace
    && q.decode(s.payload).Object? && q.decode(t.payload).Object?
    && Alike(q.decode(s.payload).o, q.decode(t.payload).o)
  }

  /** NO REPORTED CHANGE, SAME PLAN: between two lists of reconstructed objects whose payloads
      differ in nothing the diff reports, the plans are equal in every part. */
  lemma {:induction false} PlanIgnoresNoise(q: Request, xs: seq<ObjectState>, ys: seq<ObjectState>)
    requires |xs| == |ys| && forall i :: 0 <= i < |xs| ==> NoReportedChange(q, xs[i], ys[i])
    ensures PlanAll(q, Judging(q), xs) == PlanAll(q, Judging(q), ys)
  {
    if xs != [] {
      var n := |xs| - 1;
      PlanIgnoresNoise(q, xs[..n], ys[..n]);
      assert NoReportedChange(q, xs[n], ys[n]);
      JudgeIgnoresNoise(q, xs[n], ys[n]);
    }
  }

}
