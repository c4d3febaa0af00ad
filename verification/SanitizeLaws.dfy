/** What sanitizing removes, exactly; that it is idempotent; and that it hides every
    difference the diff ignores. */
module SanitizeLaws {
  import opened Text
  import opened Json
  import opened Paths
  import opened Diff
  import opened Patch
  import opened Sanitize

  // ---------------------------------------------------------------- finalizers

  /** What is kept: exactly the allowed finalizers. */
  lemma {:induction false} KeptMembers(raw: seq<Json>, allow: seq<string>, f: Json)
    ensures f in Kept(raw, allow) <==> f in raw && f.Str? && f.s != "" && f.s in allow
  {
    if raw != [] {
      KeptMembers(raw[..|raw| - 1], allow, f);
      assert raw == raw[..|raw| - 1] + [raw[|raw| - 1]];
    }
  }

  /** In their order. */
  lemma {:induction false} KeptConcat(a: seq<Json>, b: seq<Json>, allow: seq<string>)
    ensures Kept(a + b, allow) == Kept(a, allow) + Kept(b, allow)
  {
    if b == [] {
      assert a + b == a;
    } else {
      KeptConcat(a, b[..|b| - 1], allow);
      assert (a + b)[..|a + b| - 1] == a + b[..|b| - 1];
    }
  }

  /** Each other one is reported, by its text if it has one. */
  lemma {:induction false} RemovalsMembers(raw: seq<Json>, allow: seq<string>, w: Warning)
    ensures w in Removals(raw, allow) <==>
              w.RemovedFinalizer? && exists f :: f in raw && IsRemoved(f, allow, w.finalizer)
  {
    if raw != [] {
      RemovalsMembers(raw[..|raw| - 1], allow, w);
      assert raw == raw[..|raw| - 1] + [raw[|raw| - 1]];
      if w == RemovedFinalizer(FinalizerText(raw[|raw| - 1])) && !Allowed(raw[|raw| - 1], allow) {
        assert IsRemoved(raw[|raw| - 1], allow, w.finalizer);
      }
    }
  }

  /** A finalizer that goes: not a text, or empty, or not allowed. */
  predicate IsRemoved(f: Json, allow: seq<string>, text: string) {
    if f.Str? then f.s == text && (text == "" || text !in allow) else text == ""
  }

  /** In their order. */
  lemma {:induction false} RemovalsConcat(a: seq<Json>, b: seq<Json>, allow: seq<string>)
    ensures Removals(a + b, allow) == Removals(a, allow) + Removals(b, allow)
  {
    if b == [] {
      assert a + b == a;
    } else {
      var n := |b| - 1;
      RemovalsConcat(a, b[..n], allow);
      assert (a + b)[..|a + b| - 1] == a + b[..n] && (a + b)[|a + b| - 1] == b[n];
    }
  }

  /** All of them, and no warning, when all are allowed. */
  lemma {:induction false} AllKept(raw: seq<Json>, allow: seq<string>)
    requires forall i :: 0 <= i < |raw| ==> Allowed(raw[i], allow)
    ensures Kept(raw, allow) == raw && Removals(raw, allow) == []
  {
    if raw != [] {
      var n := |raw| - 1;
      AllKept(raw[..n], allow);
      assert Allowed(raw[n], allow);
      assert raw == raw[..n] + [raw[n]];
    }
  }

  lemma {:induction false} KeptTwice(raw: seq<Json>, allow: seq<string>)
    ensures Kept(Kept(raw, allow), allow) == Kept(raw, allow)
  {
    var kept := Kept(raw, allow);
    forall i | 0 <= i < |kept| ensures Allowed(kept[i], allow) { KeptMembers(raw, allow, kept[i]); }
    AllKept(kept, allow);
  }

  /** Each finalizer is kept or reported removed. */
  lemma {:induction false} KeptOrReported(raw: seq<Json>, allow: seq<string>)
    ensures |Kept(raw, allow)| + |Removals(raw, allow)| == |raw|
  {
    if raw != [] { KeptOrReported(raw[..|raw| - 1], allow); }
  }

  // ---------------------------------------------------------------- metadata, member by member

  function Finalizers(m: Fields, allow: seq<string>): Fields { CleanFinalizers(CleanMetadata(m), allow) }

  function CleanMember(f: string, v: Option<Json>, allow: seq<string>): Option<Json> {
    if f in METADATA_FIELDS || v.None? then None
    else if f == "annotations" && v.value.Obj? then
      if v.value.fields.Keys <= {LAST_APPLIED} then None else Some(Obj(v.value.fields - {LAST_APPLIED}))
    else if f == "finalizers" && v.value.Arr? && v.value.items != [] then
      if Kept(v.value.items, allow) == [] then None else Some(Arr(Kept(v.value.items, allow)))
    else v
  }

  lemma MetadataMember(m: Fields, f: string, allow: seq<string>)
    ensures Lookup(Finalizers(m, allow), f) == CleanMember(f, Lookup(m, f), allow)
  {
    var n := m - Among(METADATA_FIELDS);
    NotListed();
    assert Lookup(n, f) == if f in METADATA_FIELDS then None else Lookup(m, f);
  }

  lemma CleanMemberTwice(f: string, v: Option<Json>, allow: seq<string>)
    ensures CleanMember(f, CleanMember(f, v, allow), allow) == CleanMember(f, v, allow)
  {
    if v.Some? && v.value.Arr? { KeptTwice(v.value.items, allow); }
    if v.Some? && v.value.Obj? {
      var m := v.value.fields;
      assert (m - {LAST_APPLIED}) - {LAST_APPLIED} == m - {LAST_APPLIED};
      assert (m - {LAST_APPLIED}).Keys == m.Keys - {LAST_APPLIED};
    }
  }

  lemma MetadataTwice(m: Fields, allow: seq<string>)
    ensures Finalizers(Finalizers(m, allow), allow) == Finalizers(m, allow)
  {
    var n := Finalizers(m, allow);
    forall f ensures Lookup(Finalizers(n, allow), f) == Lookup(n, f) {
      MetadataMember(m, f, allow);
      MetadataMember(n, f, allow);
      CleanMemberTwice(f, Lookup(m, f), allow);
    }
    SameMaps(Finalizers(n, allow), n);
  }

  // ---------------------------------------------------------------- idempotence

  lemma ServiceSpecTwice(spec: Fields)
    ensures CleanServiceSpec(CleanServiceSpec(spec)) == CleanServiceSpec(spec)
  {
    var t := StringAt(spec, "type");
    var s := spec - {"clusterIP", "clusterIPs"};
    assert s - {"clusterIP", "clusterIPs"} == s;
    assert StringAt(s, "type") == t;
    if t == "NodePort" { NodePortTwice(spec); }
  }

  lemma NodePortTwice(spec: Fields)
    ensures CleanNodePort(CleanNodePort(spec)) == CleanNodePort(spec)
    ensures StringAt(CleanNodePort(spec), "type") == StringAt(spec, "type")
  {
    var s := spec - {"clusterIP", "clusterIPs"};
    var n := CleanNodePort(spec);
    assert n - {"clusterIP", "clusterIPs"} == n;
    if "ports" in s && s["ports"].Arr? {
      var ports := s["ports"].items;
      assert DropNodePorts(DropNodePorts(ports)) == DropNodePorts(ports) by {
        forall i | 0 <= i < |ports| ensures DropNodePort(DropNodePort(ports[i])) == DropNodePort(ports[i]) {
          if ports[i].Obj? { assert (ports[i].fields - {"nodePort"}) - {"nodePort"} == ports[i].fields - {"nodePort"}; }
        }
      }
      assert n["ports" := Arr(DropNodePorts(ports))] == n;
    }
  }

  lemma WorkloadSpecTwice(spec: Fields)
    ensures CleanWorkloadSpec(CleanWorkloadSpec(spec)) == CleanWorkloadSpec(spec)
  {
    if MapAt(spec, "template").Some? {
      var tmpl := spec["template"].fields;
      if MapAt(tmpl, "metadata").Some? {
        var tmeta := tmpl["metadata"].fields - Among(TEMPLATE_FIELDS);
        assert tmeta - Among(TEMPLATE_FIELDS) == tmeta;
        var t := tmpl["metadata" := Obj(tmeta)];
        assert t["metadata" := Obj(tmeta)] == t;
        var s := spec["template" := Obj(t)];
        assert s["template" := Obj(t)] == s;
      }
    }
  }

  lemma SpecTwice(spec: Fields, kind: string)
    ensures CleanSpec(CleanSpec(spec, kind), kind) == CleanSpec(spec, kind)
  {
    if kind == "Service" { ServiceSpecTwice(spec); }
    if IsWorkload(kind) { WorkloadSpecTwice(spec); }
  }

  /** A sanitized object, member by member. */
  function SanitizedMember(k: string, v: Option<Json>, kind: string, pol: Policy): Option<Json> {
    if k == "status" then None
    else if v.Some? && v.value.Obj? && k == "metadata" then Some(Obj(Finalizers(v.value.fields, pol.allowFinalizers)))
    else if v.Some? && v.value.Obj? && k == "spec" then Some(Obj(CleanSpec(v.value.fields, kind)))
    else v
  }

  lemma SanitizedAt(o: Fields, kind: string, pol: Policy, k: string)
    ensures Lookup(Sanitized(o, kind, pol), k) == SanitizedMember(k, Lookup(o, k), kind, pol)
  {
    SpecUntouched(o, pol);
    var c := WithMetadata(o, pol) - {"status"};
    assert Lookup(c, "metadata") == SanitizedMember("metadata", Lookup(o, "metadata"), kind, pol);
    assert k != "metadata" && k != "status" ==> Lookup(c, k) == Lookup(o, k);
  }

  lemma SanitizedMemberTwice(k: string, v: Option<Json>, kind: string, pol: Policy)
    ensures SanitizedMember(k, SanitizedMember(k, v, kind, pol), kind, pol) == SanitizedMember(k, v, kind, pol)
  {
    if v.Some? && v.value.Obj? {
      MetadataTwice(v.value.fields, pol.allowFinalizers);
      SpecTwice(v.value.fields, kind);
    }
  }

  /** Sanitizing twice is sanitizing once, for every object, kind and policy. */
  lemma SanitizeTwice(o: Fields, kind: string, pol: Policy)
    ensures Sanitized(Sanitized(o, kind, pol), kind, pol) == Sanitized(o, kind, pol)
  {
    var s := Sanitized(o, kind, pol);
    forall k ensures Lookup(Sanitized(s, kind, pol), k) == Lookup(s, k) {
      SanitizedAt(o, kind, pol, k);
      SanitizedAt(s, kind, pol, k);
      SanitizedMemberTwice(k, Lookup(o, k), kind, pol);
    }
    SameMaps(Sanitized(s, kind, pol), s);
  }

  // ---------------------------------------------------------------- sanitizing absorbs what the diff ignores

  predicate Calm(base: Path) {
    || |base| >= 3
    || (|base| >= 1 && base[0] != Key("metadata"))
    || (|base| == 2 && base[1] != Key("annotations"))
  }

  lemma {:induction false} StripCalm(base: Path, j: Json)
    requires Calm(base)
    ensures Strip(true, base, j) == j
    decreases j
  {
    match j {
      case Obj(m) =>
        forall k | k in m ensures Strip(true, base + [Key(k)], m[k]) == m[k] { StripCalm(base + [Key(k)], m[k]); }
        assert Strip(true, base, j).fields == m;
      case Arr(s) =>
        forall i | 0 <= i < |s| ensures Strip(true, base + [Idx(i)], s[i]) == s[i] { StripCalm(base + [Idx(i)], s[i]); }
        assert Strip(true, base, j).items == s;
      case _ =>
    }
  }

  const META: Path := [Key("metadata")]
  const ANNOTATIONS: Path := [Key("metadata"), Key("annotations")]

  lemma {:induction false} StripAnnotations(j: Json)
    ensures Strip(true, ANNOTATIONS, j) == if j.Obj? then Obj(j.fields - {LAST_APPLIED}) else j
  {
    StripKind(true, ANNOTATIONS, j);
    if j.Obj? {
      forall k ensures Lookup(Strip(true, ANNOTATIONS, j).fields, k) == Lookup(j.fields - {LAST_APPLIED}, k) {
        StripMember(true, ANNOTATIONS, j, k);
        if k in j.fields { StripCalm(ANNOTATIONS + [Key(k)], j.fields[k]); }
      }
      SameMaps(Strip(true, ANNOTATIONS, j).fields, j.fields - {LAST_APPLIED});
    } else if j.Arr? {
      forall i | 0 <= i < |j.items| ensures Strip(true, ANNOTATIONS + [Idx(i)], j.items[i]) == j.items[i] {
        StripCalm(ANNOTATIONS + [Idx(i)], j.items[i]);
      }
      assert Strip(true, ANNOTATIONS, j).items == j.items;
    }
  }

  function EssentialMember(f: string, v: Option<Json>): Option<Json> {
    if f in METADATA_IGNORE_KEYS || v.None? then None
    else if f == "annotations" && v.value.Obj? then Some(Obj(v.value.fields - {LAST_APPLIED}))
    else v
  }

  lemma {:induction false} StripMetadataMember(j: Json, f: string)
    requires j.Obj?
    ensures Strip(true, META, j).Obj?
    ensures Lookup(Strip(true, META, j).fields, f) == EssentialMember(f, Lookup(j.fields, f))
  {
    StripMember(true, META, j, f);
    if f in j.fields {
      if f == "annotations" {
        assert META + [Key(f)] == ANNOTATIONS;
        StripAnnotations(j.fields[f]);
      } else {
        StripCalm(META + [Key(f)], j.fields[f]);
      }
    }
  }

  lemma CleanOfEssential(f: string, v: Option<Json>, allow: seq<string>)
    ensures CleanMember(f, EssentialMember(f, v), allow) == CleanMember(f, v, allow)
  {
    assert f in METADATA_IGNORE_KEYS ==> f in METADATA_FIELDS;
    if v.Some? && v.value.Obj? {
      var m := v.value.fields;
      assert (m - {LAST_APPLIED}) - {LAST_APPLIED} == m - {LAST_APPLIED};
      assert (m - {LAST_APPLIED}).Keys == m.Keys - {LAST_APPLIED};
    }
  }

  lemma {:induction false} MetadataOfEssence(j: Json, allow: seq<string>)
    requires j.Obj?
    ensures Strip(true, META, j).Obj?
    ensures Finalizers(Strip(true, META, j).fields, allow) == Finalizers(j.fields, allow)
    ensures ListAt(Strip(true, META, j).fields, "finalizers") == ListAt(j.fields, "finalizers")
  {
    StripMetadataMember(j, "finalizers");
    var n := Strip(true, META, j).fields;
    forall f ensures Lookup(Finalizers(n, allow), f) == Lookup(Finalizers(j.fields, allow), f) {
      StripMetadataMember(j, f);
      MetadataMember(n, f, allow);
      MetadataMember(j.fields, f, allow);
      CleanOfEssential(f, Lookup(j.fields, f), allow);
    }
    SameMaps(Finalizers(n, allow), Finalizers(j.fields, allow));
    assert "finalizers" !in METADATA_IGNORE_KEYS;
  }

  lemma {:induction false} StripMetadataOther(j: Json)
    requires !j.Obj?
    ensures Strip(true, META, j) == j
  {
    if j.Arr? {
      forall i | 0 <= i < |j.items| ensures Strip(true, META + [Idx(i)], j.items[i]) == j.items[i] {
        StripCalm(META + [Idx(i)], j.items[i]);
      }
      assert Strip(true, META, j).items == j.items;
    }
  }

  /** The essence of an object, member by member. */
  lemma EssenceAt(o: Fields, k: string)
    ensures Essence(Obj(o)).Obj?
    ensures Lookup(Essence(Obj(o)).fields, k) ==
            if k == "status" || k !in o then None
            else if k == "metadata" then Some(Strip(true, META, o[k]))
            else Some(o[k])
  {
    StripMember(true, [], Obj(o), k);
    assert [] + [Key("metadata")] == META;
    if k in o && k != "metadata" { StripCalm([] + [Key(k)], o[k]); }
  }

  function EssenceOf(o: Fields): Fields {
    var e := Essence(Obj(o));
    if e.Obj? then e.fields else map[]
  }

  lemma SanitizedMemberOfEssence(o: Fields, kind: string, pol: Policy, k: string)
    ensures SanitizedMember(k, Lookup(EssenceOf(o), k), kind, pol) == SanitizedMember(k, Lookup(o, k), kind, pol)
  {
    EssenceAt(o, k);
    if k == "metadata" && k in o {
      if o[k].Obj? { MetadataOfEssence(o[k], pol.allowFinalizers); } else { StripMetadataOther(o[k]); }
    }
  }

  /** Sanitizing does not see the fields the diff ignores. */
  lemma SanitizeOfEssence(o: Fields, kind: string, pol: Policy)
    ensures Sanitized(EssenceOf(o), kind, pol) == Sanitized(o, kind, pol)
  {
    var e := EssenceOf(o);
    forall k ensures Lookup(Sanitized(e, kind, pol), k) == Lookup(Sanitized(o, kind, pol), k) {
      SanitizedAt(o, kind, pol, k);
      SanitizedAt(e, kind, pol, k);
      SanitizedMemberOfEssence(o, kind, pol, k);
    }
    SameMaps(Sanitized(e, kind, pol), Sanitized(o, kind, pol));
  }

  lemma WarningsOfEssence(o: Fields, kind: string, pol: Policy)
    ensures Warnings(EssenceOf(o), kind, pol) == Warnings(o, kind, pol)
  {
    var e := EssenceOf(o);
    EssenceAt(o, "metadata");
    EssenceAt(o, "spec");
    assert FinalizersOf(e) == FinalizersOf(o) by {
      if "metadata" in o {
        if o["metadata"].Obj? { MetadataOfEssence(o["metadata"], []); } else { StripMetadataOther(o["metadata"]); }
      }
    }
    assert MapAt(e, "spec") == MapAt(o, "spec");
  }

  /** NO REPORTED CHANGE MEANS IDENTICAL REPLAY PAYLOADS, for every kind and policy, if and
      only if the members under an empty top-level key agree (as when there are none). */
  lemma NoChangeSameReplay(x: Fields, y: Fields, kind: string, pol: Policy)
    requires DiffRel([], Obj(x), Obj(y)) == []
    ensures Sanitized(x, kind, pol) == Sanitized(y, kind, pol) <==> Lookup(x, "") == Lookup(y, "")
    ensures Lookup(x, "") == Lookup(y, "") ==> Warnings(x, kind, pol) == Warnings(y, kind, pol)
  {
    SanitizedAt(x, kind, pol, "");
    SanitizedAt(y, kind, pol, "");
    SameEssence(Obj(x), Obj(y));
    SanitizeOfEssence(x, kind, pol);
    SanitizeOfEssence(y, kind, pol);
    WarningsOfEssence(x, kind, pol);
    WarningsOfEssence(y, kind, pol);
  }
}
