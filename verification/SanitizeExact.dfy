/** Sanitizing as pruning: the listed members go, the finalizer list is filtered, and nothing
    else changes anywhere. */
module SanitizeExact {
  import opened Text
  import opened Json
  import opened Paths
  import opened Diff
  import opened Patch
  import opened Sanitize
  import opened SanitizeLaws

  const SPEC: Path := [Key("spec")]
  const TEMPLATE_META: Path := [Key("spec"), Key("template"), Key("metadata")]

  /** `spec.type`, "" when there is no such text. */
  function TypeOf(o: Fields): string {
    match Get(Obj(o), [Key("spec"), Key("type")]) case Some(Str(t)) => t case _ => ""
  }

  /** A cluster IP was assigned by the server: the service is not headless. */
  predicate Releases(o: Fields) {
    var t := TypeOf(o);
    || t == "NodePort"
    || ((t == "" || t == "ClusterIP") && Get(Obj(o), [Key("spec"), Key("clusterIP")]) != Some(Str("None")))
  }

  predicate OnlyLastApplied(o: Fields) {
    match Get(Obj(o), [Key("metadata"), Key("annotations")])
    case Some(Obj(anns)) => anns.Keys <= {"kubectl.kubernetes.io/last-applied-configuration"}
    case _ => false
  }

  function FinalizerList(o: Fields): seq<Json> {
    match Get(Obj(o), [Key("metadata"), Key("finalizers")]) case Some(Arr(raw)) => raw case _ => []
  }

  predicate NoneKept(o: Fields, pol: Policy) {
    FinalizerList(o) != [] && Kept(FinalizerList(o), pol.allowFinalizers) == []
  }

  predicate IsPort(p: Path) { |p| == 3 && p[0] == Key("spec") && p[1] == Key("ports") && p[2].Idx? }

  predicate ServerOwned(k: string) {
    || k == "uid" || k == "resourceVersion" || k == "creationTimestamp" || k == "generation" || k == "managedFields"
    || k == "deletionTimestamp" || k == "deletionGracePeriodSeconds" || k == "selfLink" || k == "clusterName"
    || k == "ownerReferences"
  }

  predicate TemplateOwned(k: string) {
    k == "creationTimestamp" || k == "uid" || k == "resourceVersion" || k == "generation" || k == "managedFields"
  }

  /** The members sanitizing removes: `k` of the map at `p`. */
  predicate Dropped(o: Fields, kind: string, pol: Policy, p: Path, k: string) {
    || (p == [] && k == "status")
    || (p == [Key("metadata")] && ServerOwned(k))
    || (p == [Key("metadata")] && k == "annotations" && OnlyLastApplied(o))
    || (p == [Key("metadata")] && k == "finalizers" && NoneKept(o, pol))
    || (p == [Key("metadata"), Key("annotations")] && k == "kubectl.kubernetes.io/last-applied-configuration")
    || (kind == "Service" && p == [Key("spec")] && Releases(o) && (k == "clusterIP" || k == "clusterIPs"))
    || (kind == "Service" && IsPort(p) && TypeOf(o) == "NodePort" && k == "nodePort")
    || ((kind == "Deployment" || kind == "StatefulSet" || kind == "DaemonSet") &&
        p == [Key("spec"), Key("template"), Key("metadata")] && TemplateOwned(k))
  }

  /** The code's lists are those. */
  lemma OwnedFields(k: string)
    ensures k in METADATA_FIELDS <==> ServerOwned(k)
    ensures k in TEMPLATE_FIELDS <==> TemplateOwned(k)
  {
    var m, t := METADATA_FIELDS, TEMPLATE_FIELDS;
    assert m[0] == "uid" && m[1] == "resourceVersion" && m[2] == "creationTimestamp" && m[3] == "generation";
    assert m[4] == "managedFields" && m[5] == "deletionTimestamp" && m[6] == "deletionGracePeriodSeconds";
    assert m[7] == "selfLink" && m[8] == "clusterName" && m[9] == "ownerReferences";
    assert t[0] == "creationTimestamp" && t[1] == "uid" && t[2] == "resourceVersion" && t[3] == "generation";
    assert t[4] == "managedFields";
  }

  lemma TypeRead(o: Fields)
    ensures TypeOf(o) == ServiceType(o)
  {
    GetInner(Obj(o), "spec", "type");
  }

  lemma {:induction false} GetInner(j: Json, k: string, f: string)
    ensures Get(j, [Key(k), Key(f)]) == match Hold(j, k) case Some(v) => Hold(v, f) case None => None
  {
    var p := [Key(k), Key(f)];
    assert p[0] == Key(k) && p[1..] == [Key(f)];
    if Hold(j, k).Some? { GetMember(Hold(j, k).value, f); }
  }

  function Prune(o: Fields, kind: string, pol: Policy, base: Path, j: Json): Json
    decreases j
  {
    match j
    case Obj(m) => Obj(map k | k in m && !Dropped(o, kind, pol, base, k) :: Prune(o, kind, pol, base + [Key(k)], m[k]))
    case Arr(s) => Arr(seq(|s|, i requires 0 <= i < |s| => Prune(o, kind, pol, base + [Idx(i)], s[i])))
    case _ => j
  }

  lemma {:induction false} PruneMember(o: Fields, kind: string, pol: Policy, base: Path, m: Fields, k: string)
    ensures Prune(o, kind, pol, base, Obj(m)).Obj?
    ensures Lookup(Prune(o, kind, pol, base, Obj(m)).fields, k) ==
            if k in m && !Dropped(o, kind, pol, base, k) then Some(Prune(o, kind, pol, base + [Key(k)], m[k])) else None
  {
  }

  /** Nothing is removed at or below `base`. */
  ghost predicate Quiet(o: Fields, kind: string, pol: Policy, base: Path) {
    forall rest: Path, k :: !Dropped(o, kind, pol, base + rest, k)
  }

  lemma QuietBelow(o: Fields, kind: string, pol: Policy, base: Path, t: Tok)
    requires Quiet(o, kind, pol, base)
    ensures Quiet(o, kind, pol, base + [t])
  {
    forall rest: Path, k ensures !Dropped(o, kind, pol, base + [t] + rest, k) {
      assert base + [t] + rest == base + ([t] + rest);
    }
  }

  lemma {:induction false} PruneQuiet(o: Fields, kind: string, pol: Policy, base: Path, j: Json)
    requires Quiet(o, kind, pol, base)
    ensures Prune(o, kind, pol, base, j) == j
    decreases j
  {
    match j {
      case Obj(m) =>
        forall k | k in m
          ensures !Dropped(o, kind, pol, base, k) && Prune(o, kind, pol, base + [Key(k)], m[k]) == m[k]
        {
          assert base + [] == base;
          QuietBelow(o, kind, pol, base, Key(k));
          PruneQuiet(o, kind, pol, base + [Key(k)], m[k]);
        }
        assert Prune(o, kind, pol, base, j).fields == m;
      case Arr(s) =>
        forall i | 0 <= i < |s| ensures Prune(o, kind, pol, base + [Idx(i)], s[i]) == s[i] {
          QuietBelow(o, kind, pol, base, Idx(i));
          PruneQuiet(o, kind, pol, base + [Idx(i)], s[i]);
        }
        assert Prune(o, kind, pol, base, j).items == s;
      case _ =>
    }
  }

  /** Where something may be removed, read off the path alone. */
  predicate Watched(kind: string, base: Path) {
    || base == [] || base == META || base == ANNOTATIONS || base == SPEC
    || (kind == "Service" && (base == SPEC + [Key("ports")] || IsPort(base)))
    || (IsWorkload(kind) && (base == SPEC + [Key("template")] || base == TEMPLATE_META))
  }

  lemma WatchedPrefix(kind: string, base: Path, t: Tok)
    requires Watched(kind, base + [t])
    ensures Watched(kind, base)
  {
    var p := base + [t];
    assert base == p[..|p| - 1];
  }

  lemma {:induction false} UnwatchedIsQuiet(kind: string, base: Path, rest: Path)
    requires !Watched(kind, base)
    ensures !Watched(kind, base + rest)
  {
    if rest == [] {
      assert base + rest == base;
    } else {
      UnwatchedIsQuiet(kind, base, rest[..|rest| - 1]);
      assert base + rest == (base + rest[..|rest| - 1]) + [rest[|rest| - 1]];
      if Watched(kind, base + rest) { WatchedPrefix(kind, base + rest[..|rest| - 1], rest[|rest| - 1]); }
    }
  }

  lemma {:induction false} PruneUnwatched(o: Fields, kind: string, pol: Policy, base: Path, j: Json)
    requires !Watched(kind, base)
    ensures Prune(o, kind, pol, base, j) == j
  {
    forall rest: Path, k ensures !Dropped(o, kind, pol, base + rest, k) {
      UnwatchedIsQuiet(kind, base, rest);
    }
    PruneQuiet(o, kind, pol, base, j);
  }

  // ---------------------------------------------------------------- place by place

  lemma UnwatchedMetadata(kind: string, base: Path)
    requires |base| >= 2 && base[0] == Key("metadata") && base != ANNOTATIONS
    ensures !Watched(kind, base)
  {
    assert Key("spec") != Key("metadata") by { assert |"spec"| != |"metadata"|; }
    assert SPEC[0] == Key("spec");
    assert (SPEC + [Key("ports")])[0] == Key("spec") && (SPEC + [Key("template")])[0] == Key("spec");
  }

  lemma UnwatchedSpec(kind: string, base: Path)
    requires |base| >= 2 && base[0] == Key("spec")
    requires kind == "Service" ==> base != SPEC + [Key("ports")] && !IsPort(base)
    requires IsWorkload(kind) ==> base != SPEC + [Key("template")] && base != TEMPLATE_META
    ensures !Watched(kind, base)
  {
    assert Key("spec") != Key("metadata") by { assert |"spec"| != |"metadata"|; }
    assert META[0] == Key("metadata") && ANNOTATIONS[0] == Key("metadata");
  }

  lemma {:induction false} PruneAnnotations(o: Fields, kind: string, pol: Policy, anns: Fields)
    ensures Prune(o, kind, pol, ANNOTATIONS, Obj(anns)) == Obj(anns - {LAST_APPLIED})
  {
    var r := Prune(o, kind, pol, ANNOTATIONS, Obj(anns));
    forall k ensures r.Obj? && Lookup(r.fields, k) == Lookup(anns - {LAST_APPLIED}, k) {
      PruneMember(o, kind, pol, ANNOTATIONS, anns, k);
      if k in anns {
        UnwatchedMetadata(kind, ANNOTATIONS + [Key(k)]);
        PruneUnwatched(o, kind, pol, ANNOTATIONS + [Key(k)], anns[k]);
      }
    }
    SameMaps(r.fields, anns - {LAST_APPLIED});
  }

  lemma {:induction false} PruneArray(o: Fields, kind: string, pol: Policy, base: Path, s: seq<Json>)
    requires forall i: nat :: i < |s| ==> !Watched(kind, base + [Idx(i)])
    ensures Prune(o, kind, pol, base, Arr(s)) == Arr(s)
  {
    forall i | 0 <= i < |s| ensures Prune(o, kind, pol, base + [Idx(i)], s[i]) == s[i] {
      PruneUnwatched(o, kind, pol, base + [Idx(i)], s[i]);
    }
    assert Prune(o, kind, pol, base, Arr(s)).items == s;
  }

  lemma {:induction false} PruneAnnotationsMember(o: Fields, kind: string, pol: Policy, j: Json)
    ensures Prune(o, kind, pol, ANNOTATIONS, j) == if j.Obj? then Obj(j.fields - {LAST_APPLIED}) else j
  {
    match j {
      case Obj(anns) => PruneAnnotations(o, kind, pol, anns);
      case Arr(s) =>
        forall i: nat | i < |s| ensures !Watched(kind, ANNOTATIONS + [Idx(i)]) {
          UnwatchedMetadata(kind, ANNOTATIONS + [Idx(i)]);
        }
        PruneArray(o, kind, pol, ANNOTATIONS, s);
      case _ =>
    }
  }

  lemma {:induction false} PruneMetadataChild(o: Fields, kind: string, pol: Policy, f: string, j: Json)
    ensures Prune(o, kind, pol, META + [Key(f)], j) ==
            if f == "annotations" && j.Obj? then Obj(j.fields - {LAST_APPLIED}) else j
  {
    if f == "annotations" {
      assert META + [Key(f)] == ANNOTATIONS;
      PruneAnnotationsMember(o, kind, pol, j);
    } else {
      assert (META + [Key(f)])[1] == Key(f);
      UnwatchedMetadata(kind, META + [Key(f)]);
      PruneUnwatched(o, kind, pol, META + [Key(f)], j);
    }
  }

  lemma MetadataGets(o: Fields, f: string)
    requires MapAt(o, "metadata").Some?
    ensures Get(Obj(o), [Key("metadata"), Key(f)]) == Lookup(o["metadata"].fields, f)
  {
    GetMember(o["metadata"], f);
    GetMember(Obj(o), "metadata");
    assert [Key("metadata")] + [Key(f)] == [Key("metadata"), Key(f)];
  }

  predicate SomeKept(o: Fields, pol: Policy) { Kept(FinalizerList(o), pol.allowFinalizers) != [] }

  lemma DroppedMetadata(o: Fields, kind: string, pol: Policy, f: string)
    ensures Dropped(o, kind, pol, META, f) <==>
              f in METADATA_FIELDS || (f == "annotations" && OnlyLastApplied(o)) ||
              (f == "finalizers" && NoneKept(o, pol))
  {
    OwnedFields(f);
    assert META[0] == Key("metadata") && |"spec"| != |"metadata"|;
  }

  /** A member of the metadata, pruned, the finalizers filtered. */
  lemma {:induction false} PruneMetadataMember(o: Fields, kind: string, pol: Policy, f: string)
    requires MapAt(o, "metadata").Some?
    ensures var m := o["metadata"].fields;
            var r := Prune(o, kind, pol, META, Obj(m));
            r.Obj? &&
            CleanMember(f, Lookup(m, f), pol.allowFinalizers) ==
              if f == "finalizers" && SomeKept(o, pol) then Some(Arr(Kept(FinalizerList(o), pol.allowFinalizers)))
              else Lookup(r.fields, f)
  {
    var m := o["metadata"].fields;
    MetadataGets(o, "annotations");
    MetadataGets(o, "finalizers");
    PruneMember(o, kind, pol, META, m, f);
    DroppedMetadata(o, kind, pol, f);
    NotListed();
    if f in m { PruneMetadataChild(o, kind, pol, f, m[f]); }
  }

  function WithKept(o: Fields, pol: Policy, m: Fields): Fields {
    if SomeKept(o, pol) then m["finalizers" := Arr(Kept(FinalizerList(o), pol.allowFinalizers))] else m
  }

  lemma {:induction false} PruneMetadata(o: Fields, kind: string, pol: Policy)
    requires MapAt(o, "metadata").Some?
    ensures var r := Prune(o, kind, pol, META, o["metadata"]);
            r.Obj? && Finalizers(o["metadata"].fields, pol.allowFinalizers) == WithKept(o, pol, r.fields)
  {
    var m := o["metadata"].fields;
    var r := Prune(o, kind, pol, META, Obj(m));
    PruneMember(o, kind, pol, META, m, "");
    forall f ensures Lookup(Finalizers(m, pol.allowFinalizers), f) == Lookup(WithKept(o, pol, r.fields), f) {
      MetadataMember(m, f, pol.allowFinalizers);
      PruneMetadataMember(o, kind, pol, f);
    }
    SameMaps(Finalizers(m, pol.allowFinalizers), WithKept(o, pol, r.fields));
  }

  // The spec.

  lemma DroppedSpec(o: Fields, kind: string, pol: Policy, k: string)
    ensures Dropped(o, kind, pol, SPEC, k) <==>
              kind == "Service" && Releases(o) && (k == "clusterIP" || k == "clusterIPs")
  {
    assert META != SPEC by {
      assert |"spec"| != |"metadata"|;
      assert META[0] == Key("metadata") && SPEC[0] == Key("spec");
    }
  }

  lemma DroppedPort(o: Fields, kind: string, pol: Policy, p: Path, k: string)
    requires kind == "Service" && IsPort(p)
    ensures Dropped(o, kind, pol, p, k) <==> ServiceType(o) == "NodePort" && k == "nodePort"
  {
    TypeRead(o);
    assert p[1] == Key("ports") && |"Service"| < |"DaemonSet"| < |"Deployment"|;
  }

  lemma {:induction false} PrunePort(o: Fields, kind: string, pol: Policy, i: nat, j: Json)
    requires kind == "Service"
    ensures Prune(o, kind, pol, SPEC + [Key("ports")] + [Idx(i)], j) ==
            if ServiceType(o) == "NodePort" then DropNodePort(j) else j
  {
    var base := SPEC + [Key("ports")] + [Idx(i)];
    match j {
      case Obj(m) =>
        var n := if ServiceType(o) == "NodePort" then m - {"nodePort"} else m;
        var r := Prune(o, kind, pol, base, j);
        forall k ensures r.Obj? && Lookup(r.fields, k) == Lookup(n, k) {
          PruneMember(o, kind, pol, base, m, k);
          DroppedPort(o, kind, pol, base, k);
          if k in m {
            PruneUnwatched(o, kind, pol, base + [Key(k)], m[k]);
          }
        }
        SameMaps(r.fields, n);
      case Arr(s) =>
        PruneArray(o, kind, pol, base, s);
      case _ =>
    }
  }

  lemma {:induction false} PrunePorts(o: Fields, pol: Policy, j: Json)
    ensures Prune(o, "Service", pol, SPEC + [Key("ports")], j) ==
            if ServiceType(o) == "NodePort" && j.Arr? then Arr(DropNodePorts(j.items)) else j
  {
    var base := SPEC + [Key("ports")];
    match j {
      case Obj(m) =>
        var r := Prune(o, "Service", pol, base, j);
        forall k ensures r.Obj? && Lookup(r.fields, k) == Lookup(m, k) {
          PruneMember(o, "Service", pol, base, m, k);
          assert !IsWorkload("Service") && base != SPEC && |base| == 2;
          if k in m {
            assert !IsPort(base + [Key(k)]);
            UnwatchedSpec("Service", base + [Key(k)]);
            PruneUnwatched(o, "Service", pol, base + [Key(k)], m[k]);
          }
        }
        SameMaps(r.fields, m);
      case Arr(s) =>
        var r := Prune(o, "Service", pol, base, j);
        forall i: nat | i < |s|
          ensures r.items[i] == if ServiceType(o) == "NodePort" then DropNodePort(s[i]) else s[i]
        {
          PrunePort(o, "Service", pol, i, s[i]);
        }
        assert r.items == if ServiceType(o) == "NodePort" then DropNodePorts(s) else s;
      case _ =>
    }
  }

  lemma SpecGets(o: Fields, k: string)
    requires MapAt(o, "spec").Some?
    ensures Get(Obj(o), [Key("spec"), Key(k)]) == Lookup(o["spec"].fields, k)
  {
    GetMember(o["spec"], k);
    GetMember(Obj(o), "spec");
    assert [Key("spec")] + [Key(k)] == [Key("spec"), Key(k)];
  }

  function ReleasedMember(o: Fields, k: string, v: Option<Json>): Option<Json> {
    if Releases(o) && (k == "clusterIP" || k == "clusterIPs") then None
    else if ServiceType(o) == "NodePort" && k == "ports" && v.Some? && v.value.Arr?
    then Some(Arr(DropNodePorts(v.value.items)))
    else v
  }

  lemma ServiceMember(o: Fields, k: string)
    requires MapAt(o, "spec").Some?
    ensures Lookup(CleanServiceSpec(o["spec"].fields), k) == ReleasedMember(o, k, Lookup(o["spec"].fields, k))
  {
    SpecGets(o, "clusterIP");
  }

  lemma {:induction false} PruneServiceMember(o: Fields, pol: Policy, k: string)
    requires MapAt(o, "spec").Some?
    ensures var r := Prune(o, "Service", pol, SPEC, o["spec"]);
            r.Obj? && Lookup(r.fields, k) == ReleasedMember(o, k, Lookup(o["spec"].fields, k))
  {
    var m := o["spec"].fields;
    PruneMember(o, "Service", pol, SPEC, m, k);
    DroppedSpec(o, "Service", pol, k);
    assert "ports" != "clusterIP" && "ports" != "clusterIPs" by { assert |"ports"| < |"clusterIP"| < |"clusterIPs"|; }
    if k in m {
      if k == "ports" {
        PrunePorts(o, pol, m[k]);
      } else {
        assert !IsWorkload("Service") && (SPEC + [Key(k)])[1] == Key(k) && (SPEC + [Key("ports")])[1] == Key("ports");
        UnwatchedSpec("Service", SPEC + [Key(k)]);
        PruneUnwatched(o, "Service", pol, SPEC + [Key(k)], m[k]);
      }
    }
  }

  lemma {:induction false} PruneServiceSpec(o: Fields, pol: Policy)
    requires MapAt(o, "spec").Some?
    ensures Prune(o, "Service", pol, SPEC, o["spec"]) == Obj(CleanServiceSpec(o["spec"].fields))
  {
    var r := Prune(o, "Service", pol, SPEC, o["spec"]);
    PruneServiceMember(o, pol, "");
    forall k ensures Lookup(r.fields, k) == Lookup(CleanServiceSpec(o["spec"].fields), k) {
      PruneServiceMember(o, pol, k);
      ServiceMember(o, k);
    }
    SameMaps(r.fields, CleanServiceSpec(o["spec"].fields));
  }

  // Workloads.

  lemma {:induction false} PruneTemplateMeta(o: Fields, kind: string, pol: Policy, j: Json)
    requires IsWorkload(kind)
    ensures Prune(o, kind, pol, TEMPLATE_META, j) == if j.Obj? then Obj(j.fields - Among(TEMPLATE_FIELDS)) else j
  {
    var base := TEMPLATE_META;
    assert kind != "Service";
    match j {
      case Obj(m) =>
        var r := Prune(o, kind, pol, base, j);
        var n := m - Among(TEMPLATE_FIELDS);
        forall k ensures r.Obj? && Lookup(r.fields, k) == Lookup(n, k) {
          PruneMember(o, kind, pol, base, m, k);
          assert base[1] == Key("template") && |base| == 3;
          if k in m {
            UnwatchedSpec(kind, base + [Key(k)]);
            PruneUnwatched(o, kind, pol, base + [Key(k)], m[k]);
          }
        }
        SameMaps(r.fields, n);
      case Arr(s) =>
        forall i: nat | i < |s| ensures !Watched(kind, base + [Idx(i)]) { UnwatchedSpec(kind, base + [Idx(i)]); }
        PruneArray(o, kind, pol, base, s);
      case _ =>
    }
  }

  function CleanTemplate(j: Json): Json {
    if j.Obj? && MapAt(j.fields, "metadata").Some?
    then Obj(j.fields["metadata" := Obj(j.fields["metadata"].fields - Among(TEMPLATE_FIELDS))]) else j
  }

  lemma {:induction false} PruneTemplateMember(o: Fields, kind: string, pol: Policy, m: Fields, k: string)
    requires IsWorkload(kind)
    ensures var r := Prune(o, kind, pol, SPEC + [Key("template")], Obj(m));
            r.Obj? && Lookup(r.fields, k) == Lookup(CleanTemplate(Obj(m)).fields, k)
  {
    var base := SPEC + [Key("template")];
    assert kind != "Service";
    PruneMember(o, kind, pol, base, m, k);
    assert |base| == 2 && base[0] == Key("spec");
    assert Key("spec") != Key("metadata") by { assert |"spec"| != |"metadata"|; }
    assert ANNOTATIONS[0] == Key("metadata");
    assert !Dropped(o, kind, pol, base, k);
    if k in m {
      if k == "metadata" {
        assert base + [Key(k)] == TEMPLATE_META;
        PruneTemplateMeta(o, kind, pol, m[k]);
      } else {
        assert (base + [Key(k)])[2] == Key(k) && TEMPLATE_META[2] == Key("metadata");
        UnwatchedSpec(kind, base + [Key(k)]);
        PruneUnwatched(o, kind, pol, base + [Key(k)], m[k]);
      }
    }
  }

  lemma {:induction false} PruneTemplate(o: Fields, kind: string, pol: Policy, j: Json)
    requires IsWorkload(kind)
    ensures Prune(o, kind, pol, SPEC + [Key("template")], j) == CleanTemplate(j)
  {
    var base := SPEC + [Key("template")];
    match j {
      case Obj(m) =>
        var r := Prune(o, kind, pol, base, j);
        PruneTemplateMember(o, kind, pol, m, "");
        forall k ensures Lookup(r.fields, k) == Lookup(CleanTemplate(j).fields, k) {
          PruneTemplateMember(o, kind, pol, m, k);
        }
        SameMaps(r.fields, CleanTemplate(j).fields);
      case Arr(s) =>
        assert kind != "Service";
        forall i: nat | i < |s| ensures !Watched(kind, base + [Idx(i)]) {
          assert (base + [Idx(i)])[2] == Idx(i) && TEMPLATE_META[2] == Key("metadata");
          UnwatchedSpec(kind, base + [Idx(i)]);
        }
        PruneArray(o, kind, pol, base, s);
      case _ =>
    }
  }

  lemma {:induction false} PruneWorkloadMember(o: Fields, kind: string, pol: Policy, k: string, j: Json)
    requires IsWorkload(kind)
    ensures Prune(o, kind, pol, SPEC + [Key(k)], j) == if k == "template" then CleanTemplate(j) else j
  {
    if k == "template" {
      PruneTemplate(o, kind, pol, j);
    } else {
      assert (SPEC + [Key(k)])[1] == Key(k) && (SPEC + [Key("template")])[1] == Key("template");
      UnwatchedSpec(kind, SPEC + [Key(k)]);
      PruneUnwatched(o, kind, pol, SPEC + [Key(k)], j);
    }
  }

  lemma {:induction false} PruneWorkloadSpec(o: Fields, kind: string, pol: Policy, spec: Fields)
    requires IsWorkload(kind)
    ensures Prune(o, kind, pol, SPEC, Obj(spec)) == Obj(CleanWorkloadSpec(spec))
  {
    var r := Prune(o, kind, pol, SPEC, Obj(spec));
    forall k ensures r.Obj? && Lookup(r.fields, k) == Lookup(CleanWorkloadSpec(spec), k) {
      PruneMember(o, kind, pol, SPEC, spec, k);
      DroppedSpec(o, kind, pol, k);
      if k in spec { PruneWorkloadMember(o, kind, pol, k, spec[k]); }
    }
    SameMaps(r.fields, CleanWorkloadSpec(spec));
  }

  lemma {:induction false} PruneOtherSpec(o: Fields, kind: string, pol: Policy, spec: Fields)
    requires kind != "Service" && !IsWorkload(kind)
    ensures Prune(o, kind, pol, SPEC, Obj(spec)) == Obj(spec)
  {
    var r := Prune(o, kind, pol, SPEC, Obj(spec));
    forall k ensures r.Obj? && Lookup(r.fields, k) == Lookup(spec, k) {
      PruneMember(o, kind, pol, SPEC, spec, k);
      DroppedSpec(o, kind, pol, k);
      if k in spec {
        UnwatchedSpec(kind, SPEC + [Key(k)]);
        PruneUnwatched(o, kind, pol, SPEC + [Key(k)], spec[k]);
      }
    }
    SameMaps(r.fields, spec);
  }

  lemma {:induction false} PruneListSpec(o: Fields, kind: string, pol: Policy, s: seq<Json>)
    ensures Prune(o, kind, pol, SPEC, Arr(s)) == Arr(s)
  {
    forall i: nat | i < |s| ensures !Watched(kind, SPEC + [Idx(i)]) {
      var p := SPEC + [Idx(i)];
      assert p[1] == Idx(i) && (SPEC + [Key("ports")])[1] == Key("ports")
        && (SPEC + [Key("template")])[1] == Key("template");
      UnwatchedSpec(kind, p);
    }
    PruneArray(o, kind, pol, SPEC, s);
  }

  lemma {:induction false} PruneSpec(o: Fields, kind: string, pol: Policy)
    requires "spec" in o
    ensures Prune(o, kind, pol, SPEC, o["spec"]) ==
            if o["spec"].Obj? then Obj(CleanSpec(o["spec"].fields, kind)) else o["spec"]
  {
    match o["spec"] {
      case Obj(spec) =>
        if kind == "Service" {
          PruneServiceSpec(o, pol);
        } else if IsWorkload(kind) {
          PruneWorkloadSpec(o, kind, pol, spec);
        } else {
          PruneOtherSpec(o, kind, pol, spec);
        }
      case Arr(s) => PruneListSpec(o, kind, pol, s);
      case _ =>
    }
  }

  // ---------------------------------------------------------------- the whole object

  lemma {:induction false} PruneListMetadata(o: Fields, kind: string, pol: Policy, s: seq<Json>)
    ensures Prune(o, kind, pol, META, Arr(s)) == Arr(s)
  {
    forall i: nat | i < |s| ensures !Watched(kind, META + [Idx(i)]) {
      assert (META + [Idx(i)])[1] == Idx(i);
      UnwatchedMetadata(kind, META + [Idx(i)]);
    }
    PruneArray(o, kind, pol, META, s);
  }

  function KeptMember(o: Fields, pol: Policy, k: string, v: Option<Json>): Option<Json> {
    if k == "metadata" && v.Some? && v.value.Obj? then Some(Obj(WithKept(o, pol, v.value.fields))) else v
  }

  lemma UnwatchedTop(kind: string, k: string)
    requires k != "metadata" && k != "spec"
    ensures !Watched(kind, [] + [Key(k)])
  {
    var p := [] + [Key(k)];
    assert p[0] == Key(k) && |p| == 1;
  }

  lemma {:induction false} PruneTop(o: Fields, kind: string, pol: Policy, k: string)
    ensures var r := Prune(o, kind, pol, [], Obj(o));
            r.Obj? && SanitizedMember(k, Lookup(o, k), kind, pol) == KeptMember(o, pol, k, Lookup(r.fields, k))
  {
    PruneMember(o, kind, pol, [], o, k);
    if k in o {
      if k == "metadata" {
        assert [] + [Key(k)] == META;
        match o[k] {
          case Obj(m) => PruneMetadata(o, kind, pol);
          case Arr(s) => PruneListMetadata(o, kind, pol, s);
          case _ =>
        }
      } else if k == "spec" {
        assert [] + [Key(k)] == SPEC;
        PruneSpec(o, kind, pol);
      } else {
        UnwatchedTop(kind, k);
        PruneUnwatched(o, kind, pol, [] + [Key(k)], o[k]);
      }
    }
  }

  /** SANITIZING REMOVES EXACTLY THE LISTED MEMBERS, filters the finalizer list when some
      finalizer is allowed, and leaves every other value at every path as it was. */
  lemma {:induction false} SanitizeIsPrune(o: Fields, kind: string, pol: Policy)
    ensures var r := Prune(o, kind, pol, [], Obj(o));
            && r.Obj?
            && Lookup(Sanitized(o, kind, pol), "metadata") ==
                 KeptMember(o, pol, "metadata", Lookup(r.fields, "metadata"))
            && forall k :: k != "metadata" ==> Lookup(Sanitized(o, kind, pol), k) == Lookup(r.fields, k)
  {
    PruneTop(o, kind, pol, "");
    forall k ensures Lookup(Sanitized(o, kind, pol), k) ==
                     KeptMember(o, pol, k, Lookup(Prune(o, kind, pol, [], Obj(o)).fields, k))
    {
      SanitizedAt(o, kind, pol, k);
      PruneTop(o, kind, pol, k);
    }
  }

  /** A member on the way from `base` along `p` is removed. */
  predicate Cut(o: Fields, kind: string, pol: Policy, base: Path, p: Path)
    decreases |p|
  {
    p != [] && ((p[0].Key? && Dropped(o, kind, pol, base, p[0].k)) || Cut(o, kind, pol, base + [p[0]], p[1..]))
  }

  /** What pruning leaves at a path: nothing if the path leads through a removed member, and
      otherwise what stood there, pruned. */
  lemma {:induction false} PruneAt(o: Fields, kind: string, pol: Policy, base: Path, j: Json, p: Path)
    ensures Get(Prune(o, kind, pol, base, j), p) ==
            if Get(j, p).None? || Cut(o, kind, pol, base, p) then None
            else Some(Prune(o, kind, pol, base + p, Get(j, p).value))
    decreases |p|
  {
    if p == [] {
      assert base + p == base;
    } else {
      assert base + [p[0]] + p[1..] == base + p;
      match (j, p[0]) {
        case (Obj(m), Key(k)) =>
          PruneMember(o, kind, pol, base, m, k);
          if k in m { PruneAt(o, kind, pol, base + [p[0]], m[k], p[1..]); }
        case (Arr(s), Idx(i)) =>
          if i < |s| { PruneAt(o, kind, pol, base + [p[0]], s[i], p[1..]); }
        case _ =>
      }
    }
  }

  // ---------------------------------------------------------------- by name

  lemma {:induction false} AlikeBelow(x: Fields, y: Fields, p: Path)
    requires p != [] && (p[0].Key? ==> Lookup(x, p[0].k) == Lookup(y, p[0].k))
    ensures Get(Obj(x), p) == Get(Obj(y), p)
  {
    if p[0].Key? { assert Lookup(x, p[0].k).Some? <==> Lookup(y, p[0].k).Some?; }
  }

  /** Outside the metadata, sanitizing is pruning at every path. */
  lemma {:induction false} SanitizedBelow(o: Fields, kind: string, pol: Policy, p: Path)
    requires p != [] && p[0] != Key("metadata")
    ensures Get(Obj(Sanitized(o, kind, pol)), p) == Get(Prune(o, kind, pol, [], Obj(o)), p)
  {
    SanitizeIsPrune(o, kind, pol);
    AlikeBelow(Sanitized(o, kind, pol), Prune(o, kind, pol, [], Obj(o)).fields, p);
  }

  /** A member of the metadata: the allowed finalizers, or what pruning leaves. */
  lemma {:induction false} SanitizedMetadata(o: Fields, kind: string, pol: Policy, f: string)
    ensures Get(Obj(Sanitized(o, kind, pol)), [Key("metadata"), Key(f)]) ==
            if f == "finalizers" && SomeKept(o, pol) then Some(Arr(Kept(FinalizerList(o), pol.allowFinalizers)))
            else Get(Prune(o, kind, pol, [], Obj(o)), [Key("metadata"), Key(f)])
  {
    var r := Prune(o, kind, pol, [], Obj(o));
    SanitizeIsPrune(o, kind, pol);
    GetInner(Obj(Sanitized(o, kind, pol)), "metadata", f);
    GetInner(r, "metadata", f);
    if SomeKept(o, pol) { SomeKeptIsThere(o, kind, pol); }
  }

  lemma {:induction false} SomeKeptIsThere(o: Fields, kind: string, pol: Policy)
    requires SomeKept(o, pol)
    ensures match Lookup(Prune(o, kind, pol, [], Obj(o)).fields, "metadata") case Some(v) => v.Obj? case None => false
  {
    GetInner(Obj(o), "metadata", "finalizers");
    PruneMember(o, kind, pol, [], o, "metadata");
    assert |"metadata"| != |"status"|;
    assert Prune(o, kind, pol, [] + [Key("metadata")], o["metadata"]).Obj?;
  }

  lemma {:induction false} MetadataLeft(o: Fields, kind: string, pol: Policy, f: string)
    requires f != "annotations" && f != "finalizers"
    ensures Get(Obj(Sanitized(o, kind, pol)), [Key("metadata"), Key(f)]) ==
            if ServerOwned(f) then None else Get(Obj(o), [Key("metadata"), Key(f)])
  {
    var p := [Key("metadata"), Key(f)];
    SanitizedMetadata(o, kind, pol, f);
    PruneAt(o, kind, pol, [], Obj(o), p);
    CutAtTwo(o, kind, pol, "metadata", f);
    DroppedMetadata(o, kind, pol, f);
    OwnedFields(f);
    assert |"metadata"| != |"status"| && [] + p == p;
    UnwatchedMetadata(kind, p);
    if Get(Obj(o), p).Some? { PruneUnwatched(o, kind, pol, p, Get(Obj(o), p).value); }
  }

  lemma {:induction false} CutStep(o: Fields, kind: string, pol: Policy, base: Path, k: string, rest: Path)
    ensures Cut(o, kind, pol, base, [Key(k)] + rest) <==>
              Dropped(o, kind, pol, base, k) || Cut(o, kind, pol, base + [Key(k)], rest)
  {
    var p := [Key(k)] + rest;
    assert p[0] == Key(k) && p[1..] == rest;
  }

  lemma {:induction false} CutAtTwo(o: Fields, kind: string, pol: Policy, k: string, f: string)
    ensures Cut(o, kind, pol, [], [Key(k), Key(f)]) <==>
              Dropped(o, kind, pol, [], k) || Dropped(o, kind, pol, [Key(k)], f)
  {
    CutStep(o, kind, pol, [], k, [Key(f)]);
    CutStep(o, kind, pol, [Key(k)], f, []);
    assert [Key(k)] + [Key(f)] == [Key(k), Key(f)] && [Key(f)] + [] == [Key(f)] && [] + [Key(k)] == [Key(k)];
  }

  ghost function MetaAt(o: Fields, f: string): Option<Json> { Get(Obj(o), [Key("metadata"), Key(f)]) }

  /** The server's ten metadata fields go. */
  lemma ServerFieldsGo(o: Fields, kind: string, pol: Policy)
    ensures var s := Sanitized(o, kind, pol);
            && MetaAt(s, "uid").None? && MetaAt(s, "resourceVersion").None?
            && MetaAt(s, "creationTimestamp").None? && MetaAt(s, "generation").None?
            && MetaAt(s, "managedFields").None? && MetaAt(s, "deletionTimestamp").None?
            && MetaAt(s, "deletionGracePeriodSeconds").None? && MetaAt(s, "selfLink").None?
            && MetaAt(s, "clusterName").None? && MetaAt(s, "ownerReferences").None?
  {
    MetadataLeft(o, kind, pol, "uid");
    MetadataLeft(o, kind, pol, "resourceVersion");
    MetadataLeft(o, kind, pol, "creationTimestamp");
    MetadataLeft(o, kind, pol, "generation");
    MetadataLeft(o, kind, pol, "managedFields");
    MetadataLeft(o, kind, pol, "deletionTimestamp");
    MetadataLeft(o, kind, pol, "deletionGracePeriodSeconds");
    MetadataLeft(o, kind, pol, "selfLink");
    MetadataLeft(o, kind, pol, "clusterName");
    MetadataLeft(o, kind, pol, "ownerReferences");
  }

  /** The name, the namespace and the labels stay. */
  lemma NamesStay(o: Fields, kind: string, pol: Policy)
    ensures var s := Sanitized(o, kind, pol);
            && MetaAt(s, "name") == MetaAt(o, "name") && MetaAt(s, "namespace") == MetaAt(o, "namespace")
            && MetaAt(s, "labels") == MetaAt(o, "labels")
  {
    MetadataLeft(o, kind, pol, "name");
    MetadataLeft(o, kind, pol, "namespace");
    MetadataLeft(o, kind, pol, "labels");
  }

  ghost function TemplateAt(o: Fields, f: string): Option<Json> {
    Get(Obj(o), [Key("spec"), Key("template"), Key("metadata"), Key(f)])
  }

  lemma {:induction false} TemplateLeft(o: Fields, kind: string, pol: Policy, f: string)
    requires IsWorkload(kind)
    ensures TemplateAt(Sanitized(o, kind, pol), f) == if TemplateOwned(f) then None else TemplateAt(o, f)
  {
    var p := [Key("spec"), Key("template"), Key("metadata"), Key(f)];
    assert |"spec"| < |"metadata"|;
    SanitizedBelow(o, kind, pol, p);
    PruneAt(o, kind, pol, [], Obj(o), p);
    CutAtTemplate(o, kind, pol, f);
    assert [] + p == p && |p| == 4;
    UnwatchedSpec(kind, p);
    if Get(Obj(o), p).Some? { PruneUnwatched(o, kind, pol, p, Get(Obj(o), p).value); }
  }

  lemma {:induction false} CutAtTemplate(o: Fields, kind: string, pol: Policy, f: string)
    requires IsWorkload(kind)
    ensures Cut(o, kind, pol, [], [Key("spec"), Key("template"), Key("metadata"), Key(f)]) <==> TemplateOwned(f)
  {
    assert |"spec"| < |"status"| < |"template"| == |"metadata"| < |"clusterIPs"| && kind != "Service";
    var rest := [Key("metadata"), Key(f)];
    CutStep(o, kind, pol, [], "spec", [Key("template")] + rest);
    CutStep(o, kind, pol, SPEC, "template", rest);
    CutStep(o, kind, pol, SPEC + [Key("template")], "metadata", [Key(f)]);
    CutStep(o, kind, pol, TEMPLATE_META, f, []);
    assert [Key("spec")] + ([Key("template")] + rest) == [Key("spec"), Key("template"), Key("metadata"), Key(f)];
    assert [Key("metadata")] + [Key(f)] == rest && [Key(f)] + [] == [Key(f)] && [] + [Key("spec")] == SPEC;
    assert SPEC + [Key("template")] + [Key("metadata")] == TEMPLATE_META && TEMPLATE_META[0] == Key("spec");
  }

  /** Five fields of a workload's template go; its labels stay. */
  lemma TemplateFieldsGo(o: Fields, kind: string, pol: Policy)
    requires kind == "Deployment" || kind == "StatefulSet" || kind == "DaemonSet"
    ensures var s := Sanitized(o, kind, pol);
            && TemplateAt(s, "creationTimestamp").None? && TemplateAt(s, "uid").None?
            && TemplateAt(s, "resourceVersion").None? && TemplateAt(s, "generation").None?
            && TemplateAt(s, "managedFields").None?
            && TemplateAt(s, "labels") == TemplateAt(o, "labels") && TemplateAt(s, "name") == TemplateAt(o, "name")
  {
    TemplateLeft(o, kind, pol, "creationTimestamp");
    TemplateLeft(o, kind, pol, "uid");
    TemplateLeft(o, kind, pol, "resourceVersion");
    TemplateLeft(o, kind, pol, "generation");
    TemplateLeft(o, kind, pol, "managedFields");
    TemplateLeft(o, kind, pol, "labels");
    TemplateLeft(o, kind, pol, "name");
  }
}
