/** What a plan holds, by the parts of the decoded payloads. */
module PlanExact {
  import opened Text
  import opened Events
  import opened Json
  import opened Paths
  import opened Patch
  import opened Reducer
  import opened Sanitize
  import opened SanitizeExact
  import opened Plan
  import opened PlanLaws

  // ---------------------------------------------------------------- what a payload says

  datatype Said = Said(whole: Fields, kind: string, name: string, namespace: string)

  /** The text at a path, "" when none stands there. */
  function TextAt(o: Fields, p: Path): string { match Get(Obj(o), p) case Some(Str(s)) => s case _ => "" }

  predicate Chosen(s: string, text: string, fallback: string) { s == if text == "" then fallback else text }

  /** `whole` is `o`, with an empty map for metadata that is no map. */
  ghost predicate Completed(o: Fields, whole: Fields) {
    && (forall k :: k != "metadata" ==> Lookup(whole, k) == Lookup(o, k))
    && (match Lookup(o, "metadata")
        case Some(Obj(m)) => Lookup(whole, "metadata") == Some(Obj(m))
        case _ => Lookup(whole, "metadata") == Some(Obj(map[])))
  }

  /** The state's payload decodes to an object of this kind, name and namespace; what it does not
      say is taken from the state. */
  ghost predicate Says(q: Request, st: ObjectState, x: Said) {
    match q.decode(st.payload)
    case Undecodable(_) => false
    case Object(o) =>
      && Completed(o, x.whole)
      && Chosen(x.kind, TextAt(o, [Key("kind")]), st.kind)
      && Chosen(x.name, TextAt(o, [Key("metadata"), Key("name")]), st.name)
      && Chosen(x.namespace, TextAt(o, [Key("metadata"), Key("namespace")]), st.namespace)
  }

  function Reading(q: Request, st: ObjectState, o: Fields): Said {
    Said(WithMeta(o), KindOf(o, st.kind), NameOf(WithMeta(o), st.name), NamespaceOf(WithMeta(o), st.namespace))
  }

  lemma WithMetaCompletes(o: Fields)
    ensures Completed(o, WithMeta(o))
  {
  }

  lemma MetaTexts(o: Fields, f: string)
    ensures TextAt(o, [Key("metadata"), Key(f)]) == StringAt(Meta(WithMeta(o)), f)
  {
    GetInner(Obj(o), "metadata", f);
  }

  /** Every decodable payload says exactly one such thing. */
  lemma SaysOneThing(q: Request, st: ObjectState, x: Said)
    requires q.decode(st.payload).Object?
    ensures Says(q, st, x) <==> x == Reading(q, st, q.decode(st.payload).o)
  {
    var o := q.decode(st.payload).o;
    WithMetaCompletes(o);
    MetaTexts(o, "name");
    MetaTexts(o, "namespace");
    GetMember(Obj(o), "kind");
    if Completed(o, x.whole) {
      forall k ensures Lookup(x.whole, k) == Lookup(WithMeta(o), k) { }
      SameMaps(x.whole, WithMeta(o));
    }
  }

  // ---------------------------------------------------------------- who is let in

  ghost predicate Inside(s: string, a: string, part: string, b: string) { s == a + part + b }

  lemma ContainsMeaning(s: string, part: string)
    ensures Contains(s, part) <==> exists a, b :: Inside(s, a, part, b)
  {
    if Contains(s, part) {
      var i: nat :| i <= |s| && StandsAt(part, s, i);
      assert Inside(s, s[..i], part, s[i + |part|..]);
    }
    if exists a, b :: Inside(s, a, part, b) {
      var a, b :| Inside(s, a, part, b);
      assert StandsAt(part, s, |a|);
    }
  }

  /** The policy leaves the object out for this reason. */
  ghost predicate Excused(pol: Policy, x: Said, why: Reason) {
    match why
    case TokenSecret => x.kind == "Secret" && exists a, b :: Inside(x.name, a, "-token-", b)
    case SecretByDefault =>
      x.kind == "Secret" && !pol.includeSecrets && forall a, b :: !Inside(x.name, a, "-token-", b)
    case ServiceAccountByDefault => x.kind == "ServiceAccount"
    case RbacByDefault =>
      && !pol.includeRoles
      && (x.kind == "Role" || x.kind == "ClusterRole" || x.kind == "RoleBinding" || x.kind == "ClusterRoleBinding")
    case JobByDefault => !pol.includeJobs && (x.kind == "Job" || x.kind == "CronJob")
    case PodByDefault => !pol.includePods && x.kind == "Pod"
    case StorageByDefault =>
      || x.kind == "VolumeAttachment"
      || (!pol.includePV &&
          (x.kind == "PersistentVolume" || x.kind == "PersistentVolumeClaim" || x.kind == "StorageClass"))
    case WebhookByDefault =>
      && !pol.includeWebhooks
      && (x.kind == "MutatingWebhookConfiguration" || x.kind == "ValidatingWebhookConfiguration")
    case CrdByDefault => !pol.includeCRDs && x.kind == "CustomResourceDefinition"
    case LoadBalancerUnsafe => x.kind == "Service" && TextAt(x.whole, [Key("spec"), Key("type")]) == "LoadBalancer"
    case _ => false
  }

  ghost predicate Outside(q: Request, x: Said) { q.sourceNS != "" && x.namespace != "" && x.namespace != q.sourceNS }

  ghost predicate Admits(q: Request, x: Said) { !Outside(q, x) && forall why :: !Excused(q.pol, x, why) }

  ghost predicate ExcludedAs(q: Request, x: Said, ex: Excluded) {
    && ex.namespace == x.namespace && ex.name == x.name && ex.kind == x.kind
    && if Outside(q, x) then ex.reason == OutsideSourceNamespace else Excused(q.pol, x, ex.reason)
  }

  lemma TypeIsText(o: Fields)
    ensures TextAt(o, [Key("spec"), Key("type")]) == ServiceType(o)
  {
    TypeRead(o);
  }

  lemma KindsApart(kind: string)
    ensures kind == "Secret" ==> |kind| == 6
    ensures kind == "ServiceAccount" ==> |kind| == 14
    ensures IsRbac(kind) ==> |kind| == 4 || |kind| == 11 || |kind| == 18
    ensures IsJob(kind) ==> |kind| == 3 || |kind| == 7
    ensures IsJob(kind) ==> kind[0] == 'J' || kind[0] == 'C'
    ensures kind == "Pod" ==> |kind| == 3 && kind[0] == 'P'
    ensures IsStorage(kind) ==> |kind| == 16 || |kind| == 21 || |kind| == 12
    ensures kind == "VolumeAttachment" ==> |kind| == 16
    ensures IsWebhook(kind) ==> |kind| == 28 || |kind| == 30
    ensures kind == "CustomResourceDefinition" ==> |kind| == 24
    ensures kind == "Service" ==> |kind| == 7 && kind[0] == 'S'
  {
  }

  lemma UnexcusedUsers(pol: Policy, x: Said)
    requires forall why :: !Excused(pol, x, why)
    ensures x.kind != "ServiceAccount" && (x.kind == "Secret" ==> pol.includeSecrets && !Contains(x.name, "-token-"))
    ensures (IsRbac(x.kind) ==> pol.includeRoles) && (IsJob(x.kind) ==> pol.includeJobs)
  {
    ContainsMeaning(x.name, "-token-");
    assert !Excused(pol, x, TokenSecret) && !Excused(pol, x, SecretByDefault);
    assert !Excused(pol, x, ServiceAccountByDefault) && !Excused(pol, x, RbacByDefault);
    assert !Excused(pol, x, JobByDefault);
  }

  lemma UnexcusedOthers(pol: Policy, x: Said)
    requires forall why :: !Excused(pol, x, why)
    ensures x.kind != "VolumeAttachment" && (x.kind == "Pod" ==> pol.includePods)
    ensures (IsStorage(x.kind) ==> pol.includePV) && (IsWebhook(x.kind) ==> pol.includeWebhooks)
    ensures x.kind == "CustomResourceDefinition" ==> pol.includeCRDs
    ensures !(x.kind == "Service" && ServiceType(x.whole) == "LoadBalancer")
  {
    TypeIsText(x.whole);
    assert !Excused(pol, x, PodByDefault) && !Excused(pol, x, StorageByDefault);
    assert !Excused(pol, x, WebhookByDefault) && !Excused(pol, x, CrdByDefault);
    assert !Excused(pol, x, LoadBalancerUnsafe);
  }

  lemma ReasonFound(pol: Policy, x: Said, why: Reason)
    requires Excused(pol, x, why)
    ensures ExcludeReason(x.whole, x.kind, x.name, pol) == Some(why)
  {
    ContainsMeaning(x.name, "-token-");
    TypeIsText(x.whole);
    KindsApart(x.kind);
  }

  /** The reasons by kind: there is one exactly when an object is excused, and it is that one. */
  lemma ReasonIs(pol: Policy, x: Said, why: Reason)
    ensures ExcludeReason(x.whole, x.kind, x.name, pol) == Some(why) <==> Excused(pol, x, why)
  {
    if other :| Excused(pol, x, other) {
      ReasonFound(pol, x, other);
      if Excused(pol, x, why) { ReasonFound(pol, x, why); }
    } else {
      UnexcusedUsers(pol, x);
      UnexcusedOthers(pol, x);
      ReasonMeaning(x.whole, x.kind, x.name, pol);
    }
  }

  // ---------------------------------------------------------------- what is planned

  /** The note, if any, that the kind or the service type calls for. */
  predicate Note(x: Said, w: Warning) {
    match w
    case ClusterIPRemoved =>
      && x.kind == "Service"
      && (match Get(Obj(x.whole), [Key("spec")]) case Some(Obj(_)) => true case _ => false)
      && (TextAt(x.whole, [Key("spec"), Key("type")]) == "" ||
           TextAt(x.whole, [Key("spec"), Key("type")]) == "ClusterIP")
      && TextAt(x.whole, [Key("spec"), Key("clusterIP")]) != "None"
    case ClusterIPAndNodePortRemoved =>
      x.kind == "Service" && TextAt(x.whole, [Key("spec"), Key("type")]) == "NodePort"
    case StorageAwareness => x.kind == "StatefulSet"
    case RawSecretData => x.kind == "Secret"
    case PlanOnly => x.kind == "RuntimeClass"
    case MayBeSensitive => x.kind == "ConfigMap"
    case _ => false
  }

  /** The warnings: one for each finalizer that goes, in order, and then the note. */
  ghost predicate Noted(x: Said, pol: Policy, ws: seq<Warning>) {
    var removed := Removals(FinalizerList(x.whole), pol.allowFinalizers);
    && |removed| <= |ws| <= |removed| + 1 && ws[..|removed|] == removed
    && forall w :: w in ws[|removed|..] <==> Note(x, w)
  }

  lemma FinalizersRead(o: Fields)
    ensures FinalizerList(o) == FinalizersOf(o)
  {
    GetInner(Obj(o), "metadata", "finalizers");
  }

  function NotesOf(x: Said): seq<Warning> {
    (if x.kind == "Service" then ServiceWarnings(x.whole) else []) + KindWarnings(x.kind)
  }

  lemma ServiceNote(x: Said, w: Warning)
    requires x.kind == "Service"
    ensures w in ServiceWarnings(x.whole) <==> Note(x, w)
  {
    TypeIsText(x.whole);
    GetMember(Obj(x.whole), "spec");
    GetInner(Obj(x.whole), "spec", "clusterIP");
    assert |"Service"| < |"ConfigMap"| && |"Secret"| < |"Service"| && |"StatefulSet"| < |"RuntimeClass"|;
  }

  lemma OneNote(x: Said)
    ensures |NotesOf(x)| <= 1 && forall w :: w in NotesOf(x) <==> Note(x, w)
  {
    assert |"Secret"| < |"Service"| < |"ConfigMap"| < |"StatefulSet"| < |"RuntimeClass"|;
    if x.kind == "Service" {
      forall w ensures w in NotesOf(x) <==> Note(x, w) { ServiceNote(x, w); }
    }
  }

  lemma WarningsAre(x: Said, pol: Policy)
    ensures Noted(x, pol, Warnings(x.whole, x.kind, pol))
  {
    var removed := Removals(FinalizerList(x.whole), pol.allowFinalizers);
    FinalizersRead(x.whole);
    OneNote(x);
    assert Warnings(x.whole, x.kind, pol) == removed + NotesOf(x);
  }

  predicate SpecCarried(before: Option<Json>, after: Option<Json>, target: string) {
    match before
    case Some(Obj(spec)) =>
      after == if target != "" && "namespace" in spec then Some(Obj(spec["namespace" := Str(target)])) else before
    case _ => after == before
  }

  /** The planned payload: what pruning for the object's own kind leaves of the decoded object, its
      namespace set to the target, or gone without one; the spec's follows a given target. */
  ghost predicate Carried(q: Request, x: Said, body: Fields) {
    var left := Prune(x.whole, x.kind, q.pol, [], Obj(x.whole));
    && (forall k :: k != "metadata" && k != "spec" ==> Lookup(body, k) == Get(left, [Key(k)]))
    && SpecCarried(Get(left, [Key("spec")]), Lookup(body, "spec"), if x.namespace == "" then "" else q.targetNS)
    && MapAt(body, "metadata").Some?
    && forall f :: Get(Obj(body), [Key("metadata"), Key(f)]) ==
                   if f == "namespace" && x.namespace != "" then
                     if q.targetNS == "" then None else Some(Str(q.targetNS))
                   else if f == "finalizers" && SomeKept(x.whole, q.pol)
                   then Some(Arr(Kept(FinalizerList(x.whole), q.pol.allowFinalizers)))
                   else Get(left, [Key("metadata"), Key(f)])
  }

  /** So at every path outside the metadata, but for the spec's namespace: nothing where the path
      leads through a member that sanitizing removes for that kind, and otherwise what stood there
      in the decoded object, without such members. */
  lemma {:induction false} BodyAt(q: Request, x: Said, body: Fields, p: Path)
    requires Carried(q, x, body) && p != [] && p[0] != Key("metadata")
    requires p[0] == Key("spec") ==> |p| > 1 && p[1] != Key("namespace")
    ensures Get(Obj(body), p) ==
            if Get(Obj(x.whole), p).None? || Cut(x.whole, x.kind, q.pol, [], p) then None
            else Some(Prune(x.whole, x.kind, q.pol, p, Get(Obj(x.whole), p).value))
  {
    var left := Prune(x.whole, x.kind, q.pol, [], Obj(x.whole));
    PruneAt(x.whole, x.kind, q.pol, [], Obj(x.whole), p);
    assert [] + p == p;
    if p[0].Key? {
      GetMember(left, p[0].k);
      if p[0] == Key("spec") { SpecAt(left.fields, body, if x.namespace == "" then "" else q.targetNS, p); }
      else { AlikeBelow(left.fields, body, p); }
    }
  }

  lemma {:induction false} SpecAt(left: Fields, body: Fields, target: string, p: Path)
    requires |p| > 1 && p[0] == Key("spec") && p[1] != Key("namespace")
    requires SpecCarried(Lookup(left, "spec"), Lookup(body, "spec"), target)
    ensures Get(Obj(left), p) == Get(Obj(body), p)
  {
    if Lookup(left, "spec") == Lookup(body, "spec") {
      AlikeBelow(left, body, p);
    } else {
      AlikeBelow(left["spec"].fields, body["spec"].fields, p[1..]);
    }
  }

  ghost predicate PlannedAs(q: Request, x: Said, po: PlanObject) {
    && po.kind == x.kind && po.name == x.name
    && po.namespace == (if x.namespace == "" then "" else if q.targetNS == "" then x.namespace else q.targetNS)
    && po.order == (if x.kind == "Namespace" then 0 else 1)
    && Carried(q, x, po.body)
    && Noted(x, q.pol, po.warnings)
  }

  lemma MappedMember(clean: Fields, namespace: string, targetNS: string, k: string)
    requires MapAt(clean, "metadata").Some?
    ensures k != "metadata" && k != "spec" ==> Lookup(Mapped(clean, namespace, targetNS), k) == Lookup(clean, k)
    ensures SpecCarried(Lookup(clean, "spec"), Lookup(Mapped(clean, namespace, targetNS), "spec"),
                        if namespace == "" then "" else targetNS)
  {
    assert |"spec"| < |"metadata"|;
  }

  lemma MappedMetadata(clean: Fields, namespace: string, targetNS: string, f: string)
    requires MapAt(clean, "metadata").Some?
    ensures var o := Mapped(clean, namespace, targetNS);
            && MapAt(o, "metadata").Some?
            && Lookup(o["metadata"].fields, f) ==
                 if f == "namespace" && namespace != "" then if targetNS == "" then None else Some(Str(targetNS))
                 else Lookup(clean["metadata"].fields, f)
  {
    assert |"spec"| < |"metadata"|;
  }

  lemma CleanHasMetadata(o: Fields, kind: string, pol: Policy)
    requires MapAt(o, "metadata").Some?
    ensures MapAt(Sanitized(o, kind, pol), "metadata").Some?
  {
    assert |"spec"| < |"status"| < |"metadata"|;
  }

  lemma BodyIs(q: Request, x: Said)
    requires MapAt(x.whole, "metadata").Some?
    ensures Carried(q, x, Mapped(Sanitized(x.whole, x.kind, q.pol), x.namespace, q.targetNS))
  {
    var clean := Sanitized(x.whole, x.kind, q.pol);
    var left := Prune(x.whole, x.kind, q.pol, [], Obj(x.whole));
    var body := Mapped(clean, x.namespace, q.targetNS);
    CleanHasMetadata(x.whole, x.kind, q.pol);
    SanitizeIsPrune(x.whole, x.kind, q.pol);
    forall k | k != "metadata" && k != "spec" ensures Lookup(body, k) == Get(left, [Key(k)]) {
      MappedMember(clean, x.namespace, q.targetNS, k);
      GetMember(left, k);
    }
    MappedMember(clean, x.namespace, q.targetNS, "");
    GetMember(left, "spec");
    assert |"spec"| < |"metadata"|;
    MappedMetadata(clean, x.namespace, q.targetNS, "");
    forall f ensures Get(Obj(body), [Key("metadata"), Key(f)]) ==
                     if f == "namespace" && x.namespace != "" then
                       if q.targetNS == "" then None else Some(Str(q.targetNS))
                     else Get(Obj(clean), [Key("metadata"), Key(f)])
    {
      MappedMetadata(clean, x.namespace, q.targetNS, f);
      GetInner(Obj(body), "metadata", f);
      GetInner(Obj(clean), "metadata", f);
    }
    forall f ensures Get(Obj(clean), [Key("metadata"), Key(f)]) ==
                     if f == "finalizers" && SomeKept(x.whole, q.pol)
                     then Some(Arr(Kept(FinalizerList(x.whole), q.pol.allowFinalizers)))
                     else Get(left, [Key("metadata"), Key(f)])
    {
      SanitizedMetadata(x.whole, x.kind, q.pol, f);
    }
  }

  lemma VerdictIs(q: Request, x: Said, reason: Option<Reason>, clean: Fields, warnings: seq<Warning>)
    requires forall why :: reason == Some(why) <==> Excused(q.pol, x, why)
    requires Carried(q, x, Mapped(clean, x.namespace, q.targetNS)) && Noted(x, q.pol, warnings)
    ensures var v := Verdict(q, x.kind, x.name, x.namespace, reason, clean, warnings);
            && !v.Bad? && (v.In? <==> Admits(q, x))
            && (v.In? ==> PlannedAs(q, x, v.po) && v.namespace == x.namespace)
            && (v.Out? ==> ExcludedAs(q, x, v.ex))
  {
    if reason.Some? { assert Excused(q.pol, x, reason.value); }
  }

  /** What becomes of one object, other objects aside. */
  lemma JudgedExactly(q: Request, st: ObjectState, x: Said)
    requires Says(q, st, x)
    ensures !Judge(q, st).Bad? && (Judge(q, st).In? <==> Admits(q, x))
    ensures Judge(q, st).In? ==> PlannedAs(q, x, Judge(q, st).po) && Judge(q, st).namespace == x.namespace
    ensures Judge(q, st).Out? ==> ExcludedAs(q, x, Judge(q, st).ex)
  {
    SaysOneThing(q, st, x);
    BodyIs(q, x);
    WarningsAre(x, q.pol);
    forall why ensures ExcludeReason(x.whole, x.kind, x.name, q.pol) == Some(why) <==> Excused(q.pol, x, why) {
      ReasonIs(q.pol, x, why);
    }
    VerdictIs(q, x, ExcludeReason(x.whole, x.kind, x.name, q.pol), Sanitized(x.whole, x.kind, q.pol),
              Warnings(x.whole, x.kind, q.pol));
  }

  // ---------------------------------------------------------------- object after object

  ghost predicate SameNamed(x: Said, y: Said) { x.kind + "/" + x.name == y.kind + "/" + y.name }

  /** A namespaced object of the list that is let in. */
  ghost predicate LetInAt(q: Request, states: seq<ObjectState>, j: nat, y: Said) {
    j < |states| && Says(q, states[j], y) && Admits(q, y) && y.namespace != ""
  }

  /** All namespaces are mapped into one, and an earlier object there has the same kind and name. */
  ghost predicate Taken(q: Request, states: seq<ObjectState>, i: nat, x: Said) {
    && q.sourceNS == "" && q.targetNS != "" && x.namespace != ""
    && exists j: nat, y :: j < i && LetInAt(q, states, j, y) && SameNamed(x, y)
  }

  /** The judgement lets in what says `x`. */
  ghost predicate LetsIn(q: Request, x: Said, v: Judgement) {
    && v.In? && v.namespace == x.namespace && v.po.kind == x.kind && v.po.name == x.name
    && v.po.namespace == EffectiveNS(x.namespace, q.targetNS)
  }

  lemma AdmittedIsJudged(q: Request, st: ObjectState, x: Said)
    requires Says(q, st, x) && Admits(q, x)
    ensures LetsIn(q, x, Judge(q, st))
  {
    JudgedExactly(q, st, x);
  }

  lemma JudgedSays(q: Request, st: ObjectState) returns (y: Said)
    requires Judge(q, st).In?
    ensures Says(q, st, y) && Admits(q, y) && LetsIn(q, y, Judge(q, st))
  {
    y := Reading(q, st, q.decode(st.payload).o);
    SaysOneThing(q, st, y);
    JudgedExactly(q, st, y);
  }

  lemma SameNamedSlashed(x: Said, y: Said, a: PlanObject, b: PlanObject)
    requires a.kind == x.kind && a.name == x.name && b.kind == y.kind && b.name == y.name
    ensures SameNamed(x, y) <==> SameSlashed(a, b)
  {
    assert ['/'] == "/";
  }

  lemma PlacedIsTaken(q: Request, states: seq<ObjectState>, i: nat, x: Said, j: nat, po: PlanObject)
    requires j < i < |states| && TakesPlace(OutcomeAt(q, Judging(q), states, j), po)
    requires po.kind == x.kind && po.name == x.name && x.namespace != "" && q.sourceNS == "" && q.targetNS != ""
    ensures Taken(q, states, i, x)
  {
    var y := JudgedSays(q, states[j]);
    SameNamedSlashed(x, y, po, Judge(q, states[j]).po);
    assert LetInAt(q, states, j, y) && SameNamed(x, y);
  }

  /** Where an object is let in, one of its kind and name is planned by then. */
  lemma LetInIsPlaced(q: Request, states: seq<ObjectState>, j: nat, other: PlanObject)
    requires j < |states| && Judge(q, states[j]).In? && Judge(q, states[j]).po == other && other.namespace != ""
    ensures exists k: nat :: k <= j && TakesPlace(OutcomeAt(q, Judging(q), states, k), other)
  {
    var judge := Judging(q);
    JudgingIsSensible(q);
    CollisionMeaning(q, judge, states, j);
    if OutcomeAt(q, judge, states, j).LeftOut? {
      var k: nat :| k < j && TakesPlace(OutcomeAt(q, judge, states, k), other);
      assert k <= j;
    } else {
      assert TakesPlace(OutcomeAt(q, judge, states, j), other);
    }
  }

  lemma SamePlace(out: Outcome, a: PlanObject, b: PlanObject)
    requires TakesPlace(out, a) && SameSlashed(a, b)
    ensures TakesPlace(out, b)
  {
  }

  lemma TakenIsPlaced(q: Request, states: seq<ObjectState>, i: nat, x: Said, po: PlanObject)
    requires i < |states| && Taken(q, states, i, x) && po.kind == x.kind && po.name == x.name
    ensures exists k: nat :: k < i && TakesPlace(OutcomeAt(q, Judging(q), states, k), po)
  {
    var j: nat, y :| j < i && LetInAt(q, states, j, y) && SameNamed(x, y);
    AdmittedIsJudged(q, states[j], y);
    var other := Judge(q, states[j]).po;
    LetInIsPlaced(q, states, j, other);
    var k: nat :| k <= j && TakesPlace(OutcomeAt(q, Judging(q), states, k), other);
    SameNamedSlashed(x, y, po, other);
    SamePlace(OutcomeAt(q, Judging(q), states, k), other, po);
    assert k < i;
  }

  /** An earlier object of that kind and name was let in, so one of them is planned. */
  lemma TakenMeaning(q: Request, states: seq<ObjectState>, i: nat, x: Said)
    requires i < |states| && Says(q, states[i], x) && Admits(q, x)
    ensures OutcomeAt(q, Judging(q), states, i).LeftOut? <==> Taken(q, states, i, x)
  {
    AdmittedIsJudged(q, states[i], x);
    JudgingIsSensible(q);
    var po := Judge(q, states[i]).po;
    CollisionMeaning(q, Judging(q), states, i);
    if OutcomeAt(q, Judging(q), states, i).LeftOut? {
      var j: nat :| j < i && TakesPlace(OutcomeAt(q, Judging(q), states, j), po);
      PlacedIsTaken(q, states, i, x, j, po);
    }
    if Taken(q, states, i, x) { TakenIsPlaced(q, states, i, x, po); }
  }

  ghost predicate Placed(q: Request, states: seq<ObjectState>, i: nat, x: Said, out: Outcome) {
    if !Admits(q, x) then out.LeftOut? && ExcludedAs(q, x, out.ex)
    else if Taken(q, states, i, x) then out == LeftOut(Excluded(q.targetNS, x.name, x.kind, CollisionAfterMapping))
    else out.Planned? && PlannedAs(q, x, out.po)
  }

  /** WHERE EACH OBJECT GOES: the reconstructed object whose payload says `x` is planned as said,
      left out for a reason it meets, or left out because an earlier one has its place. */
  lemma PlacedExactly(q: Request, states: seq<ObjectState>, i: nat, x: Said)
    requires i < |states| && Says(q, states[i], x)
    ensures Placed(q, states, i, x, OutcomeAt(q, Judging(q), states, i))
  {
    JudgedExactly(q, states[i], x);
    if Admits(q, x) { TakenMeaning(q, states, i, x); }
  }

  lemma {:induction false} InPlan(os: seq<Outcome>, po: PlanObject)
    ensures po in PlannedIn(os) <==> Planned(po) in os
  {
    if os != [] {
      InPlan(os[..|os| - 1], po);
      assert os == os[..|os| - 1] + [os[|os| - 1]];
    }
  }

  lemma {:induction false} InExclusions(os: seq<Outcome>, ex: Excluded)
    ensures ex in LeftOutIn(os) <==> LeftOut(ex) in os
  {
    if os != [] {
      InExclusions(os[..|os| - 1], ex);
      assert os == os[..|os| - 1] + [os[|os| - 1]];
    }
  }

  /** The `i`-th object says `x` and `out` is where it goes. */
  ghost predicate Explains(q: Request, states: seq<ObjectState>, i: nat, x: Said, out: Outcome) {
    i < |states| && Says(q, states[i], x) && Placed(q, states, i, x, out)
  }

  lemma OutcomeExplained(q: Request, states: seq<ObjectState>, out: Outcome)
    requires !out.NotDecoded? && out in Outcomes(q, Judging(q), states)
    ensures exists i: nat, x :: Explains(q, states, i, x, out)
  {
    var os := Outcomes(q, Judging(q), states);
    var i: nat :| i < |os| && os[i] == out;
    var x := Reading(q, states[i], q.decode(states[i].payload).o);
    SaysOneThing(q, states[i], x);
    PlacedExactly(q, states, i, x);
    assert Explains(q, states, i, x, out);
  }

  predicate GoesTo(plan: ReplayPlan, out: Outcome) {
    match out
    case Planned(po) => po in plan.objects
    case LeftOut(ex) => ex in plan.excluded
    case NotDecoded => false
  }

  /** THE PLAN IS WHAT THE PAYLOADS SAY: each of its objects and exclusions is explained by a
      payload, and each payload that decodes has its object or its exclusion there. */
  lemma PlanIsExact(plan: ReplayPlan, log: seq<Record>, snap: SnapshotRef, q: Request, states: seq<ObjectState>)
    requires PlanOf(plan, log, snap, q, states)
    ensures forall out :: GoesTo(plan, out) ==> exists i: nat, x :: Explains(q, states, i, x, out)
    ensures forall i: nat, x :: i < |states| && Says(q, states[i], x) ==>
              exists out :: GoesTo(plan, out) && Placed(q, states, i, x, out)
  {
    forall out | GoesTo(plan, out) ensures exists i: nat, x :: Explains(q, states, i, x, out) {
      GoesToIsOutcome(plan, log, snap, q, states, out);
      OutcomeExplained(q, states, out);
    }
    forall i: nat, x | i < |states| && Says(q, states[i], x)
      ensures exists out :: GoesTo(plan, out) && Placed(q, states, i, x, out)
    {
      var os := Outcomes(q, Judging(q), states);
      PlacedExactly(q, states, i, x);
      assert os[i] in os;
      GoesToIsOutcome(plan, log, snap, q, states, os[i]);
    }
  }

  lemma GoesToIsOutcome(plan: ReplayPlan, log: seq<Record>, snap: SnapshotRef, q: Request, states: seq<ObjectState>,
                        out: Outcome)
    requires PlanOf(plan, log, snap, q, states) && !out.NotDecoded?
    ensures GoesTo(plan, out) <==> out in Outcomes(q, Judging(q), states)
  {
    var d := PlanAll(q, Judging(q), states);
    Accounting(q, Judging(q), states);
    match out {
      case Planned(po) =>
        InPlan(Outcomes(q, Judging(q), states), po);
        assert po in plan.objects <==> po in multiset(plan.objects);
        assert po in d.objects <==> po in multiset(d.objects);
      case LeftOut(ex) => InExclusions(Outcomes(q, Judging(q), states), ex);
    }
  }

  /** The order of a plan: Namespaces, then by namespace, then by name. */
  lemma PlanIsOrdered(plan: ReplayPlan, log: seq<Record>, snap: SnapshotRef, q: Request, states: seq<ObjectState>)
    requires PlanOf(plan, log, snap, q, states)
    ensures forall i, j :: 0 <= i < j < |plan.objects| ==> NotAfter(plan.objects[i], plan.objects[j])
  {
    forall i, j | 0 <= i < j < |plan.objects| ensures NotAfter(plan.objects[i], plan.objects[j]) {
      assert InPlanOrder(plan.objects[i], plan.objects[j]);
      NotAfterMeaning(plan.objects[i], plan.objects[j]);
    }
  }

  predicate NotAfter(a: PlanObject, b: PlanObject) {
    || a.order < b.order
    || (a.order == b.order && Before(a.namespace, b.namespace))
    || (a.order == b.order && a.namespace == b.namespace && !Before(b.name, a.name))
  }

  lemma NotAfterMeaning(a: PlanObject, b: PlanObject)
    ensures InPlanOrder(a, b) <==> NotAfter(a, b)
  {
    BeforeIsTotal(a.name, b.name);
    BeforeIsStrict(a.namespace);
    BeforeIsStrict(a.name);
    if Before(a.name, b.name) { BeforeIsAsymmetric(a.name, b.name); }
  }

  // ---------------------------------------------------------------- the plan's warnings

  /** What the object `st` adds to the plan's warnings. */
  ghost function WarningsAt(q: Request, states: seq<ObjectState>, i: nat): seq<Warning>
    requires i < |states|
  {
    var before, after := PlanAll(q, Judging(q), states[..i]).warnings, PlanAll(q, Judging(q), states[..i + 1]).warnings;
    if |before| <= |after| then after[|before|..] else []
  }

  /** No namespaced object was let in before. */
  ghost predicate First(q: Request, states: seq<ObjectState>, i: nat) {
    forall j: nat, y :: j < i ==> !LetInAt(q, states, j, y)
  }

  ghost predicate Warned(q: Request, states: seq<ObjectState>, i: nat, x: Said, ws: seq<Warning>) {
    if !Admits(q, x) then
      if x.kind == "Service" && !Outside(q, x) then
        |ws| == 1 && ws[0].ServiceExcluded? && ws[0].namespace == x.namespace && ws[0].name == x.name &&
        Excused(q.pol, x, ws[0].reason)
      else ws == []
    else
      ws == (if q.targetNS != "" && x.namespace != "" && First(q, states, i)
             then [NamespaceMapping(if q.sourceNS == "" then "*" else q.sourceNS, q.targetNS)] else []) +
            (if Taken(q, states, i, x) then [CollisionExcluded(x.kind, q.targetNS, x.name, q.targetNS)] else [])
  }

  lemma {:induction false} MappedMeaning(q: Request, states: seq<ObjectState>, n: nat)
    requires n <= |states|
    ensures PlanAll(q, Judging(q), states[..n]).mapped <==> q.targetNS != "" && !First(q, states, n)
  {
    if n > 0 {
      var m := n - 1;
      MappedMeaning(q, states, m);
      PlanNext(q, Judging(q), states, m);
      MappedStep(q, PlanAll(q, Judging(q), states[..m]), states[m], Judge(q, states[m]));
      LetInMeaning(q, states, m);
      assert First(q, states, n) <==> First(q, states, m) && forall y :: !LetInAt(q, states, m, y);
    }
  }

  lemma MappedStep(q: Request, d: Draft, st: ObjectState, v: Judgement)
    ensures PlanStep(q, d, st, v).mapped <==> d.mapped || (v.In? && v.namespace != "" && q.targetNS != "")
  {
  }

  lemma LetInMeaning(q: Request, states: seq<ObjectState>, m: nat)
    requires m < |states|
    ensures (exists y :: LetInAt(q, states, m, y)) <==> Judge(q, states[m]).In? && Judge(q, states[m]).namespace != ""
  {
    if Judge(q, states[m]).In? {
      var y := JudgedSays(q, states[m]);
      assert y.namespace != "" ==> LetInAt(q, states, m, y);
    }
    forall y | LetInAt(q, states, m, y) ensures Judge(q, states[m]).In? && Judge(q, states[m]).namespace != "" {
      AdmittedIsJudged(q, states[m], y);
    }
  }

  function Added(q: Request, d: Draft, st: ObjectState, v: Judgement): seq<Warning> {
    match v
    case Bad(error) => [CannotDecode(st.kind, st.name, error)]
    case Out(ex) => ServiceExclusion(ex)
    case In(po, namespace) =>
      (if namespace != "" && q.targetNS != "" && !d.mapped then [MappingWarning(q)] else []) +
      (if Collapses(q, po) && KeyOfTarget(po) in d.seen then [CollisionWarning(q, po)] else [])
  }

  lemma StepWarns(q: Request, d: Draft, st: ObjectState, v: Judgement)
    ensures PlanStep(q, d, st, v).warnings == d.warnings + Added(q, d, st, v)
  {
    assert d.warnings + [] == d.warnings;
  }

  lemma {:induction false} AddedAt(q: Request, states: seq<ObjectState>, i: nat)
    requires i < |states|
    ensures var d := PlanAll(q, Judging(q), states[..i]);
            && PlanAll(q, Judging(q), states[..i + 1]).warnings == d.warnings + WarningsAt(q, states, i)
            && WarningsAt(q, states, i) == Added(q, d, states[i], Judge(q, states[i]))
  {
    var d := PlanAll(q, Judging(q), states[..i]);
    PlanNext(q, Judging(q), states, i);
    StepWarns(q, d, states[i], Judge(q, states[i]));
  }

  lemma AdmittedWarned(q: Request, states: seq<ObjectState>, i: nat, x: Said)
    requires i < |states| && Says(q, states[i], x) && Admits(q, x)
    ensures Warned(q, states, i, x, WarningsAt(q, states, i))
  {
    AddedAt(q, states, i);
    AdmittedIsJudged(q, states[i], x);
    TakenMeaning(q, states, i, x);
    MappedMeaning(q, states, i);
  }

  lemma ExcludedWarned(q: Request, x: Said, d: Draft, st: ObjectState, v: Judgement)
    requires v.Out? && ExcludedAs(q, x, v.ex)
    ensures x.kind == "Service" && !Outside(q, x) ==>
              Added(q, d, st, v) == [ServiceExcluded(x.namespace, x.name, v.ex.reason)]
    ensures x.kind != "Service" || Outside(q, x) ==> Added(q, d, st, v) == []
  {
  }

  /** WHAT EACH OBJECT ADDS TO THE WARNINGS: one that it cannot be decoded, that a service is left
      out, that namespaces are mapped, once, or that its place is taken. */
  lemma {:induction false} WarnedExactly(q: Request, states: seq<ObjectState>, i: nat)
    requires i < |states|
    ensures PlanAll(q, Judging(q), states[..i + 1]).warnings ==
              PlanAll(q, Judging(q), states[..i]).warnings + WarningsAt(q, states, i)
    ensures match q.decode(states[i].payload)
            case Undecodable(error) => WarningsAt(q, states, i) == [CannotDecode(states[i].kind, states[i].name, error)]
            case Object(_) => forall x :: Says(q, states[i], x) ==> Warned(q, states, i, x, WarningsAt(q, states, i))
  {
    AddedAt(q, states, i);
    forall x | Says(q, states[i], x) ensures Warned(q, states, i, x, WarningsAt(q, states, i)) {
      if Admits(q, x) {
        AdmittedWarned(q, states, i, x);
      } else {
        JudgedExactly(q, states[i], x);
        ExcludedWarned(q, x, PlanAll(q, Judging(q), states[..i]), states[i], Judge(q, states[i]));
      }
    }
  }
}
