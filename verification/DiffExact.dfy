/** Exactly which changes a diff reports. */
module DiffExact {
  import opened Text
  import opened Keys
  import opened Json
  import opened Paths
  import opened Diff
  import opened Patch

  /** Two values the diff looks into: objects, or arrays of one length. */
  predicate Paired(x: Option<Json>, y: Option<Json>) {
    && x.Some? && y.Some?
    && ((x.value.Obj? && y.value.Obj?) || (x.value.Arr? && y.value.Arr? && |x.value.items| == |y.value.items|))
  }

  /** Everything above `p` is looked into. */
  ghost predicate Compared(b: Json, a: Json, p: Path) {
    forall i :: 0 <= i < |p| ==> Paired(Get(b, p[..i]), Get(a, p[..i]))
  }

  /** The fields the diff is documented to ignore. */
  predicate Documented(parent: Path, key: string) {
    || (parent == [] && key == "status")
    || (parent == [Key("metadata")] &&
        (key == "uid" || key == "resourceVersion" || key == "creationTimestamp" || key == "generation" ||
         key == "managedFields" || key == "deletionTimestamp" || key == "ownerReferences"))
    || (parent == [Key("metadata"), Key("annotations")] && key == "kubectl.kubernetes.io/last-applied-configuration")
  }

  /** It ignores those, and no other. */
  lemma IgnoredFields(parent: Path, key: string)
    ensures Ignored(parent, key) <==> Documented(parent, key)
  {
  }

  /** A path without the empty keys it begins with. */
  lemma {:induction false} VisiblePart(p: Path, n: nat)
    requires n <= |p| && (forall i :: 0 <= i < n ==> p[i] == Key("")) && (n < |p| ==> p[n] != Key(""))
    ensures Visible(p) == p[n..]
  {
    if n > 0 { VisiblePart(p[1..], n - 1); }
  }

  /** `p` leads through no ignored key. */
  ghost predicate Heeded(base: Path, p: Path) {
    forall i :: 0 <= i < |p| && p[i].Key? ==> !Ignored(Visible(base + p[..i]), p[i].k)
  }

  /** A member came or went, or two values differ that the diff cannot look into. */
  predicate Deep(c: Change) {
    if c.added || c.removed then c.path != [] && c.path[|c.path| - 1].Key?
    else !Paired(Some(c.before), Some(c.after))
  }

  ghost predicate Reportable(base: Path, b: Json, a: Json, c: Change) {
    Real(b, a, c) && Deep(c) && Compared(b, a, c.path) && Heeded(base, c.path)
  }

  // ---------------------------------------------------------------- one token down

  function Down(c: Change): Change
    requires c.path != []
  {
    c.(path := c.path[1..])
  }

  lemma AtDown(c: Change)
    requires c.path != []
    ensures At(c.path[0], Down(c)) == c
  {
    assert [c.path[0]] + c.path[1..] == c.path;
  }

  lemma {:induction false} HeededBelow(base: Path, p: Path)
    requires p != []
    ensures Heeded(base, p) <==>
            (p[0].Key? ==> !Ignored(Visible(base), p[0].k)) && Heeded(base + [p[0]], p[1..])
  {
    assert base + p[..0] == base;
    forall i | 0 <= i < |p| - 1 ensures base + [p[0]] + p[1..][..i] == base + p[..i + 1] && p[1..][i] == p[i + 1] {
      assert [p[0]] + p[1..][..i] == p[..i + 1];
    }
    if Heeded(base, p) {
      forall i | 0 <= i < |p[1..]| && p[1..][i].Key?
        ensures !Ignored(Visible(base + [p[0]] + p[1..][..i]), p[1..][i].k)
      {
        assert p[i + 1].Key?;
      }
    }
    if (p[0].Key? ==> !Ignored(Visible(base), p[0].k)) && Heeded(base + [p[0]], p[1..]) {
      forall i | 0 <= i < |p| && p[i].Key? ensures !Ignored(Visible(base + p[..i]), p[i].k) {
        if i > 0 { assert p[1..][i - 1] == p[i]; }
      }
    }
  }

  /** What stands one token down, if the token leads somewhere. */
  function Child(j: Json, t: Tok): Option<Json> {
    match t
    case Key(k) => Hold(j, k)
    case Idx(i) => if j.Arr? && i < |j.items| then Some(j.items[i]) else None
  }

  lemma {:induction false} GetDown(j: Json, p: Path)
    requires p != []
    ensures Get(j, p) == if Child(j, p[0]).Some? then Get(Child(j, p[0]).value, p[1..]) else None
  {
  }

  lemma ComparedBelow(b: Json, a: Json, p: Path)
    requires p != [] && Paired(Some(b), Some(a)) && Child(b, p[0]).Some? && Child(a, p[0]).Some?
    ensures Compared(b, a, p) <==> Compared(Child(b, p[0]).value, Child(a, p[0]).value, p[1..])
  {
    var x, y := Child(b, p[0]).value, Child(a, p[0]).value;
    assert p[..0] == [];
    forall i | 0 <= i < |p| - 1 ensures Get(b, p[..i + 1]) == Get(x, p[1..][..i])
      && Get(a, p[..i + 1]) == Get(y, p[1..][..i]) {
      assert p[..i + 1][1..] == p[1..][..i] && p[..i + 1][0] == p[0];
      GetDown(b, p[..i + 1]);
      GetDown(a, p[..i + 1]);
    }
    if Compared(x, y, p[1..]) {
      forall i | 0 <= i < |p| ensures Paired(Get(b, p[..i]), Get(a, p[..i])) {
        if i > 0 { assert Paired(Get(x, p[1..][..i - 1]), Get(y, p[1..][..i - 1])); }
      }
    }
    if Compared(b, a, p) {
      forall i | 0 <= i < |p[1..]| ensures Paired(Get(x, p[1..][..i]), Get(y, p[1..][..i])) {
        assert Paired(Get(b, p[..i + 1]), Get(a, p[..i + 1]));
      }
    }
  }

  lemma RealBelow(b: Json, a: Json, c: Change)
    requires c.path != [] && Child(b, c.path[0]).Some? && Child(a, c.path[0]).Some?
    ensures Real(b, a, c) <==> Real(Child(b, c.path[0]).value, Child(a, c.path[0]).value, Down(c))
  {
    GetDown(b, c.path);
    GetDown(a, c.path);
  }

  lemma DeepBelow(b: Json, a: Json, c: Change)
    requires c.path != [] && Child(b, c.path[0]).Some? && Child(a, c.path[0]).Some? && Real(b, a, c)
    ensures Deep(c) <==> Deep(Down(c))
  {
    GetDown(b, c.path);
    GetDown(a, c.path);
    if |c.path| > 1 { assert c.path[1..][|c.path| - 2] == c.path[|c.path| - 1]; }
  }

  /** Below a token that stands on both sides, a change is reportable exactly as seen from there. */
  lemma {:induction false} ReportableBelow(base: Path, b: Json, a: Json, c: Change)
    requires c.path != [] && Paired(Some(b), Some(a))
    requires Child(b, c.path[0]).Some? && Child(a, c.path[0]).Some?
    ensures Reportable(base, b, a, c) <==>
            (c.path[0].Key? ==> !Ignored(Visible(base), c.path[0].k)) &&
            Reportable(base + [c.path[0]], Child(b, c.path[0]).value, Child(a, c.path[0]).value, Down(c))
  {
    RealBelow(b, a, c);
    if Real(b, a, c) { DeepBelow(b, a, c); }
    ComparedBelow(b, a, c.path);
    HeededBelow(base, c.path);
  }

  // ---------------------------------------------------------------- members and items

  lemma {:induction false} InUnder(t: Tok, cs: seq<Change>, c: Change)
    ensures c in Under(t, cs) <==> c.path != [] && c.path[0] == t && Down(c) in cs
  {
    if c in Under(t, cs) {
      var i :| 0 <= i < |cs| && Under(t, cs)[i] == c;
      assert c.path[1..] == cs[i].path;
      assert Down(c) == cs[i];
    }
    if c.path != [] && c.path[0] == t && Down(c) in cs {
      AtDown(c);
      var i :| 0 <= i < |cs| && cs[i] == Down(c);
      assert Under(t, cs)[i] == c;
    }
  }

  lemma {:induction false} InKeys(base: Path, b: Json, a: Json, ks: seq<string>, c: Change)
    requires b.Obj? && a.Obj?
    ensures c in DiffKeys(base, b, a, ks) <==> exists k :: k in ks && c in DiffKey(base, b, a, k)
  {
    if ks != [] {
      var init, k := ks[..|ks| - 1], ks[|ks| - 1];
      InKeys(base, b, a, init, c);
      assert ks == init + [k];
      if c in DiffKeys(base, b, a, init) {
        var l :| l in init && c in DiffKey(base, b, a, l);
        assert l in ks;
      }
      if l :| l in ks && c in DiffKey(base, b, a, l) {
        assert l == k || l in init;
      }
    }
  }

  lemma {:induction false} InItems(base: Path, b: Json, a: Json, n: nat, c: Change)
    requires b.Arr? && a.Arr? && n <= |b.items| && n <= |a.items|
    ensures c in DiffItems(base, b, a, n) <==>
            exists i: nat :: i < n && c in Under(Idx(i), DiffRel(base + [Idx(i)], b.items[i], a.items[i]))
  {
    if n > 0 { InItems(base, b, a, n - 1, c); }
  }

  /** A change one level down that only one side holds. */
  lemma {:induction false} OneSided(base: Path, b: Json, a: Json, c: Change)
    requires c.path != [] && b.Obj? && a.Obj? && c.path[0].Key?
    requires Child(b, c.path[0]).Some? != Child(a, c.path[0]).Some?
    ensures var k := c.path[0].k;
            Reportable(base, b, a, c) <==>
            !Ignored(Visible(base), k) &&
            c == if k in b.fields then Change([Key(k)], b.fields[k], Null, false, true)
                 else Change([Key(k)], Null, a.fields[k], true, false)
  {
    var k := c.path[0].k;
    GetDown(b, c.path);
    GetDown(a, c.path);
    HeededBelow(base, c.path);
    assert c.path[..0] == [] && c.path[..1] == [Key(k)];
    GetMember(b, k);
    GetMember(a, k);
    if |c.path| == 1 {
      assert c.path == [Key(k)] && c.path[1..] == [];
    } else {
      assert !Paired(Get(b, c.path[..1]), Get(a, c.path[..1]));
    }
  }

  lemma {:induction false} InMember(base: Path, b: Json, a: Json, c: Change)
    requires b.Obj? && a.Obj? && c.path != [] && c.path[0].Key?
    requires var k := c.path[0].k;
             k in b.fields && k in a.fields ==>
               (Down(c) in DiffRel(base + [Key(k)], b.fields[k], a.fields[k]) <==>
                Reportable(base + [Key(k)], b.fields[k], a.fields[k], Down(c)))
    ensures c in DiffKey(base, b, a, c.path[0].k) <==> Reportable(base, b, a, c)
  {
    var k := c.path[0].k;
    GetDown(b, c.path);
    GetDown(a, c.path);
    if k in b.fields && k in a.fields {
      ReportableBelow(base, b, a, c);
      InUnder(Key(k), DiffRel(base + [Key(k)], b.fields[k], a.fields[k]), c);
    } else if k in b.fields || k in a.fields {
      OneSided(base, b, a, c);
    }
  }

  lemma {:induction false} OtherMember(base: Path, b: Json, a: Json, k: string, c: Change)
    requires b.Obj? && a.Obj? && c in DiffKey(base, b, a, k)
    ensures c.path != [] && c.path[0] == Key(k) && (k in b.fields || k in a.fields)
  {
    if k in b.fields && k in a.fields {
      InUnder(Key(k), DiffRel(base + [Key(k)], b.fields[k], a.fields[k]), c);
    }
  }

  // ---------------------------------------------------------------- the exact report

  lemma {:induction false} InObjects(base: Path, b: Json, a: Json, c: Change)
    requires b.Obj? && a.Obj? && b != a
    ensures c in DiffRel(base, b, a) <==> Reportable(base, b, a, c)
    decreases b, 0
  {
    var keys := b.fields.Keys + a.fields.Keys;
    SortedKeysListSet(keys);
    assert Elements(SortedKeys(keys)) == keys;
    InKeys(base, b, a, SortedKeys(keys), c);
    forall k | k in SortedKeys(keys) && c in DiffKey(base, b, a, k) ensures c.path != [] && c.path[0] == Key(k) {
      OtherMember(base, b, a, k, c);
    }
    if c.path != [] && c.path[0].Key? {
      var k := c.path[0].k;
      if k in b.fields && k in a.fields {
        ReportedExactly(base + [Key(k)], b.fields[k], a.fields[k], Down(c));
      }
      InMember(base, b, a, c);
      if k !in keys { GetNowhere(b, a, c); }
    } else {
      NotOfObjects(base, b, a, c);
    }
  }

  lemma GetNowhere(b: Json, a: Json, c: Change)
    requires c.path != [] && Child(b, c.path[0]).None? && Child(a, c.path[0]).None?
    ensures !Real(b, a, c)
  {
    GetDown(b, c.path);
    GetDown(a, c.path);
  }

  lemma NotOfObjects(base: Path, b: Json, a: Json, c: Change)
    requires b.Obj? && a.Obj? && (c.path == [] || c.path[0].Idx?)
    ensures !Reportable(base, b, a, c)
  {
  }

  lemma NotOfArrays(base: Path, b: Json, a: Json, c: Change)
    requires b.Arr? && a.Arr? && |b.items| == |a.items|
    requires c.path == [] || c.path[0].Key? || c.path[0].i >= |b.items|
    ensures !Reportable(base, b, a, c)
  {
  }

  lemma {:induction false} InArrays(base: Path, b: Json, a: Json, c: Change)
    requires b.Arr? && a.Arr? && |b.items| == |a.items| && b != a
    ensures c in DiffRel(base, b, a) <==> Reportable(base, b, a, c)
    decreases b, 0
  {
    InItems(base, b, a, |b.items|, c);
    if c.path != [] && c.path[0].Idx? && c.path[0].i < |b.items| {
      var i := c.path[0].i;
      ReportedExactly(base + [Idx(i)], b.items[i], a.items[i], Down(c));
      ReportableBelow(base, b, a, c);
      InUnder(Idx(i), DiffRel(base + [Idx(i)], b.items[i], a.items[i]), c);
      NotUnderOthers(base, b, a, c);
    } else {
      NotOfArrays(base, b, a, c);
      NotUnderOthers(base, b, a, c);
    }
  }

  lemma {:induction false} NotUnderOthers(base: Path, b: Json, a: Json, c: Change)
    requires b.Arr? && a.Arr? && |b.items| == |a.items|
    ensures forall i: nat ::
              i < |b.items| && c in Under(Idx(i), DiffRel(base + [Idx(i)], b.items[i], a.items[i])) ==>
                c.path != [] && c.path[0] == Idx(i)
  {
    forall i: nat | i < |b.items| && c in Under(Idx(i), DiffRel(base + [Idx(i)], b.items[i], a.items[i]))
      ensures c.path != [] && c.path[0] == Idx(i)
    {
      InUnder(Idx(i), DiffRel(base + [Idx(i)], b.items[i], a.items[i]), c);
    }
  }

  lemma AtTheTop(base: Path, b: Json, a: Json, c: Change)
    requires b != a && !Paired(Some(b), Some(a))
    ensures c in [Change([], b, a, false, false)] <==> Reportable(base, b, a, c)
  {
    if c.path != [] {
      assert c.path[..0] == [];
      assert !Paired(Get(b, c.path[..0]), Get(a, c.path[..0]));
    }
  }

  lemma {:induction false} SamesHaveNoChange(j: Json, c: Change)
    ensures !Real(j, j, c)
  {
  }

  /** EXACTLY THESE CHANGES: a diff lists a change if and only if it shows what stands at its path on
      both sides, everything above is looked into, no key on the way is ignored, and it goes as deep
      as it can: a member came or went, or two values differ that cannot be looked into. */
  lemma {:induction false} ReportedExactly(base: Path, b: Json, a: Json, c: Change)
    ensures c in DiffRel(base, b, a) <==> Reportable(base, b, a, c)
    decreases b, 1
  {
    if b == a {
      SamesHaveNoChange(b, c);
    } else if b.Obj? && a.Obj? {
      InObjects(base, b, a, c);
    } else if b.Arr? && a.Arr? && |b.items| == |a.items| {
      InArrays(base, b, a, c);
    } else {
      AtTheTop(base, b, a, c);
    }
  }

  /** So does the report, whatever its order. */
  lemma {:induction false} ReportHasExactly(b: Json, a: Json, r: seq<FieldChange>, x: FieldChange)
    requires multiset(r) == multiset(ShowAll([], DiffRel([], b, a)))
    ensures x in r <==> exists c :: Reportable([], b, a, c) && x == Shown([], c)
  {
    var cs := DiffRel([], b, a);
    assert x in r <==> x in multiset(ShowAll([], cs));
    if x in r {
      var i :| 0 <= i < |cs| && ShowAll([], cs)[i] == x;
      ReportedExactly([], b, a, cs[i]);
      assert cs[i] in cs;
    }
    if c :| Reportable([], b, a, c) && x == Shown([], c) {
      ReportedExactly([], b, a, c);
      var i :| 0 <= i < |cs| && cs[i] == c;
      assert ShowAll([], cs)[i] == x;
    }
  }
}
