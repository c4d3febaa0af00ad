/** Sanitizing a payload for replay (internal/replay/sanitize.go). */
module Sanitize {
  import opened Text
  import opened Json
  import opened Diff

  type Fields = map<string, Json>

  datatype Policy = Policy(
    includeSecrets: bool, includeRoles: bool, includePods: bool, includeJobs: bool, includePV: bool,
    includeWebhooks: bool, includeCRDs: bool, allowFinalizers: seq<string>, mapNamespaces: bool, allowGaps: bool)

  /** Why an object is left out of a plan. */
  datatype Reason =
    | TokenSecret | SecretByDefault | ServiceAccountByDefault | RbacByDefault | JobByDefault | PodByDefault
    | StorageByDefault | WebhookByDefault | CrdByDefault | LoadBalancerUnsafe
    | OutsideSourceNamespace | CollisionAfterMapping

  /** What the user is told; the wording is not modelled. */
  datatype Warning =
    | RemovedFinalizer(finalizer: string)
    | ClusterIPRemoved | ClusterIPAndNodePortRemoved
    | StorageAwareness | RawSecretData | PlanOnly | MayBeSensitive
    | CannotDecode(kind: string, name: string, error: string)
    | ServiceExcluded(namespace: string, name: string, reason: Reason)
    | NamespaceMapping(from: string, to: string)
    | CollisionExcluded(kind: string, namespace: string, name: string, target: string)
    | Skipping(kind: string, name: string)

  const METADATA_FIELDS: seq<string> :=
    ["uid", "resourceVersion", "creationTimestamp", "generation", "managedFields", "deletionTimestamp",
     "deletionGracePeriodSeconds", "selfLink", "clusterName", "ownerReferences"]

  const TEMPLATE_FIELDS: seq<string> := ["creationTimestamp", "uid", "resourceVersion", "generation", "managedFields"]

  function Among(fs: seq<string>): set<string> { set f | f in fs }

  /** `o[k].(map[string]any)`. */
  function MapAt(o: Fields, k: string): Option<Fields> {
    if k in o && o[k].Obj? then Some(o[k].fields) else None
  }

  function ListAt(o: Fields, k: string): Option<seq<Json>> {
    if k in o && o[k].Arr? then Some(o[k].items) else None
  }

  /** `s, _ := o[k].(string)`. */
  function StringAt(o: Fields, k: string): string {
    if k in o && o[k].Str? then o[k].s else ""
  }

  // ---------------------------------------------------------------- what each part leaves

  function CleanAnnotations(m: Fields): Fields {
    match MapAt(m, "annotations")
    case None => m
    case Some(anns) =>
      if anns.Keys <= {LAST_APPLIED} then m - {"annotations"} else m["annotations" := Obj(anns - {LAST_APPLIED})]
  }

  function CleanMetadata(m: Fields): Fields { CleanAnnotations(m - Among(METADATA_FIELDS)) }

  predicate Allowed(f: Json, allow: seq<string>) { f.Str? && f.s != "" && f.s in allow }

  function Kept(raw: seq<Json>, allow: seq<string>): seq<Json> {
    if raw == [] then []
    else Kept(raw[..|raw| - 1], allow) + if Allowed(raw[|raw| - 1], allow) then [raw[|raw| - 1]] else []
  }

  function FinalizerText(f: Json): string { if f.Str? then f.s else "" }

  function Removals(raw: seq<Json>, allow: seq<string>): seq<Warning> {
    if raw == [] then []
    else
      Removals(raw[..|raw| - 1], allow) +
      if Allowed(raw[|raw| - 1], allow) then [] else [RemovedFinalizer(FinalizerText(raw[|raw| - 1]))]
  }

  function CleanFinalizers(m: Fields, allow: seq<string>): Fields {
    match ListAt(m, "finalizers")
    case None => m
    case Some(raw) =>
      if raw == [] then m
      else if Kept(raw, allow) == [] then m - {"finalizers"}
      else m["finalizers" := Arr(Kept(raw, allow))]
  }

  function ServiceType(o: Fields): string {
    match MapAt(o, "spec") case Some(spec) => StringAt(spec, "type") case None => ""
  }

  predicate Headless(spec: Fields) { StringAt(spec, "clusterIP") == "None" }

  function DropNodePort(p: Json): Json { if p.Obj? then Obj(p.fields - {"nodePort"}) else p }

  function DropNodePorts(ports: seq<Json>): seq<Json> {
    seq(|ports|, i requires 0 <= i < |ports| => DropNodePort(ports[i]))
  }

  function CleanNodePort(spec: Fields): Fields {
    var s := spec - {"clusterIP", "clusterIPs"};
    match ListAt(s, "ports") case Some(ports) => s["ports" := Arr(DropNodePorts(ports))] case None => s
  }

  function CleanServiceSpec(spec: Fields): Fields {
    var t := StringAt(spec, "type");
    if t == "" || t == "ClusterIP" then if Headless(spec) then spec else spec - {"clusterIP", "clusterIPs"}
    else if t == "NodePort" then CleanNodePort(spec)
    else spec
  }

  function CleanWorkloadSpec(spec: Fields): Fields {
    match MapAt(spec, "template")
    case None => spec
    case Some(tmpl) =>
      match MapAt(tmpl, "metadata")
      case None => spec
      case Some(tmeta) => spec["template" := Obj(tmpl["metadata" := Obj(tmeta - Among(TEMPLATE_FIELDS))])]
  }

  predicate IsWorkload(kind: string) { kind == "Deployment" || kind == "StatefulSet" || kind == "DaemonSet" }

  function CleanSpec(spec: Fields, kind: string): Fields {
    if kind == "Service" then CleanServiceSpec(spec) else if IsWorkload(kind) then CleanWorkloadSpec(spec) else spec
  }

  function WithMetadata(o: Fields, pol: Policy): Fields {
    match MapAt(o, "metadata")
    case None => o
    case Some(m) => o["metadata" := Obj(CleanFinalizers(CleanMetadata(m), pol.allowFinalizers))]
  }

  function WithSpec(o: Fields, kind: string): Fields {
    match MapAt(o, "spec") case None => o case Some(spec) => o["spec" := Obj(CleanSpec(spec, kind))]
  }

  /** The sanitized object. */
  function Sanitized(o: Fields, kind: string, pol: Policy): Fields {
    WithSpec(WithMetadata(o, pol) - {"status"}, kind)
  }

  function FinalizersOf(o: Fields): seq<Json> {
    match MapAt(o, "metadata")
    case None => []
    case Some(m) => ListAt(m, "finalizers").GetOr([])
  }

  function ServiceWarnings(o: Fields): seq<Warning> {
    match MapAt(o, "spec")
    case None => []
    case Some(spec) =>
      var t := ServiceType(o);
      if t == "" || t == "ClusterIP" then if Headless(spec) then [] else [ClusterIPRemoved]
      else if t == "NodePort" then [ClusterIPAndNodePortRemoved]
      else []
  }

  function KindWarnings(kind: string): seq<Warning> {
    if kind == "StatefulSet" then [StorageAwareness]
    else if kind == "Secret" then [RawSecretData]
    else if kind == "RuntimeClass" then [PlanOnly]
    else if kind == "ConfigMap" then [MayBeSensitive]
    else []
  }

  function Warnings(o: Fields, kind: string, pol: Policy): seq<Warning> {
    Removals(FinalizersOf(o), pol.allowFinalizers) + (if kind == "Service" then ServiceWarnings(o) else []) +
      KindWarnings(kind)
  }

  // ---------------------------------------------------------------- what is left out of a plan

  predicate StandsAt(part: string, s: string, i: nat) { i + |part| <= |s| && s[i..i + |part|] == part }

  predicate Contains(s: string, part: string) { exists i: nat | i <= |s| :: StandsAt(part, s, i) }

  predicate IsRbac(kind: string) {
    kind == "Role" || kind == "ClusterRole" || kind == "RoleBinding" || kind == "ClusterRoleBinding"
  }

  predicate IsJob(kind: string) { kind == "Job" || kind == "CronJob" }

  predicate IsStorage(kind: string) {
    kind == "PersistentVolume" || kind == "PersistentVolumeClaim" || kind == "StorageClass"
  }

  predicate IsWebhook(kind: string) {
    kind == "MutatingWebhookConfiguration" || kind == "ValidatingWebhookConfiguration"
  }

  /** `excludeReason`. */
  function ExcludeReason(o: Fields, kind: string, name: string, pol: Policy): Option<Reason> {
    if kind == "Secret" then
      if Contains(name, "-token-") then Some(TokenSecret)
      else if !pol.includeSecrets then Some(SecretByDefault) else None
    else if kind == "ServiceAccount" then Some(ServiceAccountByDefault)
    else if IsRbac(kind) then
      if !pol.includeRoles then Some(RbacByDefault) else None
    else if IsJob(kind) then
      if !pol.includeJobs then Some(JobByDefault) else None
    else if kind == "Pod" then
      if !pol.includePods then Some(PodByDefault) else None
    else if IsStorage(kind) then
      if !pol.includePV then Some(StorageByDefault) else None
    else if kind == "VolumeAttachment" then Some(StorageByDefault)
    else if IsWebhook(kind) then
      if !pol.includeWebhooks then Some(WebhookByDefault) else None
    else if kind == "CustomResourceDefinition" then
      if !pol.includeCRDs then Some(CrdByDefault) else None
    else if kind == "Service" && ServiceType(o) == "LoadBalancer" then
      Some(LoadBalancerUnsafe)
    else None
  }

  // ---------------------------------------------------------------- the code, on a payload it changes in place

  /** `for _, f := range fs { delete(m, f) }`. */
  method DeleteAll(m: Fields, fs: seq<string>) returns (n: Fields)
    ensures n == m - Among(fs)
  {
    n := m;
    assert fs[..0] == [];
    for i := 0 to |fs|
      invariant n == m - Among(fs[..i])
    {
      n := n - {fs[i]};
    }
    assert fs[..|fs|] == fs;
  }

  /** The end of `stripMetadata`. */
  method DeleteLastApplied(m: Fields) returns (n: Fields)
    ensures n == CleanAnnotations(m)
  {
    n := m;
    var anns := MapAt(m, "annotations");
    if anns.Some? {
      var left := anns.value - {LAST_APPLIED};
      n := n["annotations" := Obj(left)];
      if |left| == 0 { n := n - {"annotations"}; }
    }
  }

  /** A decoded object. A nested map is changed by writing the changed map back at its key. */
  class Payload {
    var root: Fields

    constructor (o: Fields)
      ensures root == o
    {
      root := o;
    }

    method StripMetadata()
      modifies this
      ensures root == match MapAt(old(root), "metadata")
                      case None => old(root) case Some(m) => old(root)["metadata" := Obj(CleanMetadata(m))]
    {
      var at := MapAt(root, "metadata");
      if at.None? { return; }
      var m := DeleteAll(at.value, METADATA_FIELDS);
      m := DeleteLastApplied(m);
      root := root["metadata" := Obj(m)];
    }

    method SanitizeFinalizers(pol: Policy) returns (warnings: seq<Warning>)
      modifies this
      ensures root == match MapAt(old(root), "metadata")
                      case None => old(root)
                      case Some(m) => old(root)["metadata" := Obj(CleanFinalizers(m, pol.allowFinalizers))]
      ensures warnings == Removals(FinalizersOf(old(root)), pol.allowFinalizers)
    {
      warnings := [];
      var at := MapAt(root, "metadata");
      if at.None? { return; }
      var m := at.value;
      var raw := ListAt(m, "finalizers").GetOr([]);
      if raw == [] {
        assert root["metadata" := Obj(m)] == root;
        return;
      }
      var keep: seq<Json> := [];
      for i := 0 to |raw|
        invariant keep == Kept(raw[..i], pol.allowFinalizers)
        invariant warnings == Removals(raw[..i], pol.allowFinalizers)
      {
        assert raw[..i + 1][..i] == raw[..i];
        var s := FinalizerText(raw[i]);
        if s != "" && s in pol.allowFinalizers {
          keep := keep + [Str(s)];
        } else {
          warnings := warnings + [RemovedFinalizer(s)];
        }
      }
      assert raw[..|raw|] == raw;
      if |keep| == 0 { m := m - {"finalizers"}; } else { m := m["finalizers" := Arr(keep)]; }
      root := root["metadata" := Obj(m)];
    }

    method SanitizeService() returns (warnings: seq<Warning>)
      modifies this
      ensures root == match MapAt(old(root), "spec")
                      case None => old(root) case Some(spec) => old(root)["spec" := Obj(CleanServiceSpec(spec))]
      ensures warnings == ServiceWarnings(old(root))
    {
      var at := MapAt(root, "spec");
      if at.None? { return []; }
      var spec := at.value;
      var t := ServiceType(root);
      if t == "" || t == "ClusterIP" {
        if "clusterIP" in spec && spec["clusterIP"] == Str("None") {
          assert root["spec" := Obj(spec)] == root;
          return [];
        }
        spec := spec - {"clusterIP"};
        spec := spec - {"clusterIPs"};
        assert spec == at.value - {"clusterIP", "clusterIPs"};
        root := root["spec" := Obj(spec)];
        return [ClusterIPRemoved];
      }
      if t == "NodePort" {
        spec := spec - {"clusterIP"};
        spec := spec - {"clusterIPs"};
        assert spec == at.value - {"clusterIP", "clusterIPs"};
        if "ports" in spec && spec["ports"].Arr? {
          var ports := spec["ports"].items;
          var done := ports;
          for i := 0 to |ports|
            invariant |done| == |ports|
            invariant forall j :: 0 <= j < |ports| ==> done[j] == if j < i then DropNodePort(ports[j]) else ports[j]
          {
            if done[i].Obj? { done := done[i := Obj(done[i].fields - {"nodePort"})]; }
          }
          assert done == DropNodePorts(ports);
          spec := spec["ports" := Arr(done)];
        }
        root := root["spec" := Obj(spec)];
        return [ClusterIPAndNodePortRemoved];
      }
      assert root["spec" := Obj(spec)] == root;
      return [];
    }

    method StripWorkloadTemplate()
      modifies this
      ensures root == match MapAt(old(root), "spec")
                      case None => old(root) case Some(spec) => old(root)["spec" := Obj(CleanWorkloadSpec(spec))]
    {
      var spec := MapAt(root, "spec");
      if spec.None? { return; }
      assert root["spec" := Obj(spec.value)] == root;
      var tmpl := MapAt(spec.value, "template");
      if tmpl.None? { return; }
      var at := MapAt(tmpl.value, "metadata");
      if at.None? { return; }
      var tmeta := DeleteAll(at.value, TEMPLATE_FIELDS);
      root := root["spec" := Obj(spec.value["template" := Obj(tmpl.value["metadata" := Obj(tmeta)])])];
    }

    /** The first switch of `sanitizeObject`. */
    method SanitizeSpec(kind: string) returns (warnings: seq<Warning>)
      modifies this
      ensures root == WithSpec(old(root), kind)
      ensures warnings == if kind == "Service" then ServiceWarnings(old(root)) else []
    {
      warnings := [];
      if kind == "Service" {
        warnings := SanitizeService();
      } else if IsWorkload(kind) {
        StripWorkloadTemplate();
      }
    }

    /** `sanitizeObject`. */
    method SanitizeObject(kind: string, pol: Policy) returns (warnings: seq<Warning>)
      modifies this
      ensures root == Sanitized(old(root), kind, pol)
      ensures warnings == Warnings(old(root), kind, pol)
    {
      ghost var o := root;
      StripMetadata();
      CleanKeepsFinalizers(o);
      warnings := SanitizeFinalizers(pol);
      assert root == WithMetadata(o, pol);
      root := root - {"status"};
      SpecUntouched(o, pol);
      var more := SanitizeSpec(kind);
      warnings := warnings + more + KindWarnings(kind);
    }
  }

  /** Cleaning metadata leaves the finalizers to their own step. */
  lemma CleanKeepsFinalizers(o: Fields)
    ensures match MapAt(o, "metadata")
            case None => true
            case Some(m) => ListAt(CleanMetadata(m), "finalizers") == ListAt(m, "finalizers")
    ensures match MapAt(o, "metadata") case None => true case Some(m) =>
              FinalizersOf(o["metadata" := Obj(CleanMetadata(m))]) == FinalizersOf(o)
  {
    match MapAt(o, "metadata") case None => case Some(m) => NotListed();
  }

  lemma NotListed()
    ensures "finalizers" !in Among(METADATA_FIELDS) && "annotations" !in Among(METADATA_FIELDS)
  {
  }

  lemma SpecUntouched(o: Fields, pol: Policy)
    ensures MapAt(WithMetadata(o, pol) - {"status"}, "spec") == MapAt(o, "spec")
    ensures ServiceWarnings(WithMetadata(o, pol) - {"status"}) == ServiceWarnings(o)
  {
  }

}
