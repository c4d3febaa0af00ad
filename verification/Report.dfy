/** The reported list of changes: its paths, and patching with it as text. */
module Report {
  import opened Text
  import opened Seqs
  import opened Keys
  import opened Json
  import opened Paths
  import opened Diff
  import opened Patch

  // ---------------------------------------------------------------- paths apart

  /** Neither path leads through the other. */
  predicate Apart(p: Path, q: Path) { !(p <= q) && !(q <= p) }

  ghost predicate PairwiseApart(cs: seq<Change>) {
    forall i, j :: 0 <= i < j < |cs| ==> Apart(cs[i].path, cs[j].path)
  }

  lemma PrefixBelow(t: Tok, p: Path, q: Path)
    ensures [t] + p <= [t] + q <==> p <= q
  {
    var x, y := [t] + p, [t] + q;
    assert x[1..] == p && y[1..] == q;
    assert x <= y ==> x == y[..|x|];
    assert x <= y ==> y[..|x|][1..] == q[..|p|];
  }

  lemma ApartBelow(t: Tok, p: Path, q: Path)
    ensures Apart([t] + p, [t] + q) <==> Apart(p, q)
  {
    PrefixBelow(t, p, q);
    PrefixBelow(t, q, p);
  }

  lemma ApartUnder(t: Tok, cs: seq<Change>)
    requires PairwiseApart(cs)
    ensures PairwiseApart(Under(t, cs))
  {
    forall i, j | 0 <= i < j < |cs| ensures Apart(Under(t, cs)[i].path, Under(t, cs)[j].path) {
      ApartBelow(t, cs[i].path, cs[j].path);
    }
  }

  ghost predicate Heads(cs: seq<Change>, ts: set<Tok>) {
    forall i :: 0 <= i < |cs| ==> cs[i].path != [] && cs[i].path[0] in ts
  }

  function KeyToks(ks: seq<string>): set<Tok> { set k | k in ks :: Key(k) }

  function Indexes(n: nat): set<Tok> { set i: nat | i < n :: Idx(i) }

  lemma {:induction false} KeysApart(base: Path, b: Json, a: Json, ks: seq<string>)
    requires b.Obj? && a.Obj? && Distinct(ks)
    ensures PairwiseApart(DiffKeys(base, b, a, ks)) && Heads(DiffKeys(base, b, a, ks), KeyToks(ks))
    decreases b, 0, |ks|
  {
    if ks != [] {
      var init, k := ks[..|ks| - 1], ks[|ks| - 1];
      var cs, ds := DiffKeys(base, b, a, init), DiffKey(base, b, a, k);
      KeysApart(base, b, a, init);
      if k in b.fields && k in a.fields {
        PathsAreApart(base + [Key(k)], b.fields[k], a.fields[k]);
        ApartUnder(Key(k), DiffRel(base + [Key(k)], b.fields[k], a.fields[k]));
      }
      assert PairwiseApart(ds) && Heads(ds, {Key(k)});
      assert KeyToks(ks) == KeyToks(init) + {Key(k)};
    }
  }

  lemma {:induction false} ItemsApart(base: Path, b: Json, a: Json, n: nat)
    requires b.Arr? && a.Arr? && n <= |b.items| && n <= |a.items|
    ensures PairwiseApart(DiffItems(base, b, a, n)) && Heads(DiffItems(base, b, a, n), Indexes(n))
    decreases b, 0, n
  {
    if n > 0 {
      var i := n - 1;
      var below := DiffRel(base + [Idx(i)], b.items[i], a.items[i]);
      var cs, ds := DiffItems(base, b, a, i), Under(Idx(i), below);
      ItemsApart(base, b, a, i);
      PathsAreApart(base + [Idx(i)], b.items[i], a.items[i]);
      ApartUnder(Idx(i), below);
      assert Indexes(n) == Indexes(i) + {Idx(i)};
    }
  }

  /** The paths of one diff are pairwise distinct, and none leads through another. */
  lemma {:induction false} PathsAreApart(base: Path, b: Json, a: Json)
    ensures PairwiseApart(DiffRel(base, b, a))
    decreases b, 1, 0
  {
    if b == a {
    } else if b.Obj? && a.Obj? {
      SortedKeysListSet(b.fields.Keys + a.fields.Keys);
      KeysApart(base, b, a, SortedKeys(b.fields.Keys + a.fields.Keys));
    } else if b.Arr? && a.Arr? && |b.items| == |a.items| {
      ItemsApart(base, b, a, |b.items|);
    }
  }

  // ---------------------------------------------------------------- the order of the changes does not matter

  lemma SetKeysCommute(m: map<string, Json>, k: string, l: string, x: Option<Json>, y: Option<Json>)
    requires k != l
    ensures SetKey(SetKey(m, k, x), l, y) == SetKey(SetKey(m, l, y), k, x)
    ensures Lookup(SetKey(m, k, x), l) == Lookup(m, l)
    ensures Lookup(SetKey(m, l, y), k) == Lookup(m, k)
  {
  }

  lemma SetKeyTwice(m: map<string, Json>, k: string, x: Option<Json>, y: Option<Json>)
    ensures SetKey(SetKey(m, k, x), k, y) == SetKey(m, k, y)
    ensures Lookup(SetKey(m, k, x), k) == x
  {
  }

  lemma {:induction false} EditKey(m: map<string, Json>, p: Path, v: Option<Json>)
    requires p != [] && p[0].Key?
    ensures Edit(Obj(m), p, v) == Obj(SetKey(m, p[0].k, EditMember(Lookup(m, p[0].k), p[1..], v)))
  {
  }

  lemma {:induction false} EditKeysCommute(m: map<string, Json>, p: Path, v: Option<Json>, q: Path, w: Option<Json>)
    requires p != [] && q != [] && p[0].Key? && q[0].Key?
    requires p[0] == q[0] ==>
      forall x :: EditMember(EditMember(x, p[1..], v), q[1..], w) == EditMember(EditMember(x, q[1..], w), p[1..], v)
    ensures Edit(Edit(Obj(m), p, v), q, w) == Edit(Edit(Obj(m), q, w), p, v)
  {
    var k, l := p[0].k, q[0].k;
    var x, y := EditMember(Lookup(m, k), p[1..], v), EditMember(Lookup(m, l), q[1..], w);
    EditKey(m, p, v);
    EditKey(m, q, w);
    EditKey(SetKey(m, k, x), q, w);
    EditKey(SetKey(m, l, y), p, v);
    if k == l {
      SetKeyTwice(m, k, x, EditMember(x, q[1..], w));
      SetKeyTwice(m, k, y, EditMember(y, p[1..], v));
    } else {
      SetKeysCommute(m, k, l, x, y);
    }
  }

  lemma {:induction false} EditIdx(s: seq<Json>, p: Path, v: Option<Json>)
    requires p != [] && p[0].Idx?
    ensures Edit(Arr(s), p, v) == if p[0].i < |s| then Arr(s[p[0].i := Edit(s[p[0].i], p[1..], v)]) else Arr(s)
  {
  }

  lemma {:induction false} EditIdxsCommute(s: seq<Json>, p: Path, v: Option<Json>, q: Path, w: Option<Json>)
    requires p != [] && q != [] && p[0].Idx? && q[0].Idx?
    requires p[0] == q[0] ==> forall x :: Edit(Edit(x, p[1..], v), q[1..], w) == Edit(Edit(x, q[1..], w), p[1..], v)
    ensures Edit(Edit(Arr(s), p, v), q, w) == Edit(Edit(Arr(s), q, w), p, v)
  {
    var i, j := p[0].i, q[0].i;
    EditIdx(s, p, v);
    EditIdx(s, q, w);
    var s1 := if i < |s| then s[i := Edit(s[i], p[1..], v)] else s;
    var s2 := if j < |s| then s[j := Edit(s[j], q[1..], w)] else s;
    EditIdx(s1, q, w);
    EditIdx(s2, p, v);
    if i < |s| && j < |s| {
      if i == j {
        assert s1[i := Edit(s1[i], q[1..], w)] == s[i := Edit(s1[i], q[1..], w)];
        assert s2[i := Edit(s2[i], p[1..], v)] == s[i := Edit(s2[i], p[1..], v)];
      } else {
        assert s1[j] == s[j] && s2[i] == s[i];
        assert s1[j := s2[j]] == s2[i := s1[i]];
      }
    }
  }

  lemma {:induction false} EditsCommute(j: Json, p: Path, v: Option<Json>, q: Path, w: Option<Json>)
    requires Apart(p, q)
    ensures Edit(Edit(j, p, v), q, w) == Edit(Edit(j, q, w), p, v)
    decreases |p|
  {
    var s, t := p[0], q[0];
    if s == t {
      forall x ensures Edit(Edit(x, p[1..], v), q[1..], w) == Edit(Edit(x, q[1..], w), p[1..], v) {
        EditsCommute(x, p[1..], v, q[1..], w);
      }
      assert p[1..] != [] && q[1..] != [];
      assert forall x ::
          EditMember(EditMember(x, p[1..], v), q[1..], w) == EditMember(EditMember(x, q[1..], w), p[1..], v);
    }
    if j.Obj? && s.Key? && t.Key? {
      EditKeysCommute(j.fields, p, v, q, w);
    } else if j.Arr? && s.Idx? && t.Idx? {
      EditIdxsCommute(j.items, p, v, q, w);
    }
  }

  lemma {:induction false} MoveToEnd(j: Json, c: Change, cs: seq<Change>)
    requires forall i :: 0 <= i < |cs| ==> Apart(c.path, cs[i].path)
    ensures ApplyAll(Apply(j, c), cs) == Apply(ApplyAll(j, cs), c)
  {
    if cs != [] {
      var init, d := cs[..|cs| - 1], cs[|cs| - 1];
      MoveToEnd(j, c, init);
      EditsCommute(ApplyAll(j, init), c.path, NewValue(c), d.path, NewValue(d));
    }
  }

  /** Takes the last element of `b` out of `a`. */
  lemma TakeOut<T>(a: seq<T>, b: seq<T>) returns (u: seq<T>, x: T, v: seq<T>, init: seq<T>)
    requires multiset(a) == multiset(b) && b != []
    ensures a == u + [x] + v && b == init + [x] && multiset(u + v) == multiset(init)
  {
    init, x := b[..|b| - 1], b[|b| - 1];
    assert b == init + [x];
    assert x in multiset(a);
    var i :| 0 <= i < |a| && a[i] == x;
    u, v := a[..i], a[i + 1..];
    assert a == u + [x] + v;
    assert multiset(u + v) == multiset(a) - multiset{x};
    assert multiset(init) == multiset(b) - multiset{x};
  }

  lemma ApartWithout(u: seq<Change>, x: Change, v: seq<Change>)
    requires PairwiseApart(u + [x] + v)
    ensures PairwiseApart(u + v)
    ensures forall i :: 0 <= i < |v| ==> Apart(x.path, v[i].path)
  {
    var a := u + [x] + v;
    assert a[|u|] == x;
    forall i | 0 <= i < |v| ensures Apart(x.path, v[i].path) { assert a[|u| + 1 + i] == v[i]; }
    forall i, j | 0 <= i < j < |u + v| ensures Apart((u + v)[i].path, (u + v)[j].path) {
      var i' := if i < |u| then i else i + 1;
      var j' := if j < |u| then j else j + 1;
      assert a[i'] == (u + v)[i] && a[j'] == (u + v)[j];
    }
  }

  lemma {:induction false} AnyOrder(j: Json, cs: seq<Change>, ds: seq<Change>)
    requires PairwiseApart(cs) && multiset(cs) == multiset(ds)
    ensures ApplyAll(j, cs) == ApplyAll(j, ds)
    decreases |ds|
  {
    SameLength(cs, ds);
    if ds != [] {
      var u, x, v, init := TakeOut(cs, ds);
      ApartWithout(u, x, v);
      AnyOrder(j, u + v, init);
      MoveToEnd(ApplyAll(j, u), x, v);
      ApplyConcat(j, u + [x], v);
      ApplySnoc(j, u, x);
      ApplyConcat(j, u, v);
      ApplySnoc(j, init, x);
    }
  }

  // ---------------------------------------------------------------- patching with the report

  /** The change a reported line stands for. */
  function Decode(c: FieldChange): Change {
    Change(Read(c.path).GetOr([]), c.before, c.after, c.added, c.removed)
  }

  function DecodeAll(cs: seq<FieldChange>): seq<Change> {
    seq(|cs|, i requires 0 <= i < |cs| => Decode(cs[i]))
  }

  lemma DecodeAllSplits(u: seq<FieldChange>, x: FieldChange, v: seq<FieldChange>)
    ensures DecodeAll(u + [x] + v) == DecodeAll(u) + [Decode(x)] + DecodeAll(v)
    ensures DecodeAll(u + v) == DecodeAll(u) + DecodeAll(v)
  {
  }

  lemma {:induction false} DecodeAnyOrder(a: seq<FieldChange>, b: seq<FieldChange>)
    requires multiset(a) == multiset(b)
    ensures multiset(DecodeAll(a)) == multiset(DecodeAll(b))
    decreases |b|
  {
    SameLength(a, b);
    if b != [] {
      var u, x, v, init := TakeOut(a, b);
      DecodeAnyOrder(u + v, init);
      DecodeAllSplits(u, x, v);
      DecodeAllSplits(init, x, []);
      assert init + [x] + [] == b && DecodeAll(init) + [Decode(x)] + [] == DecodeAll(init) + [Decode(x)];
    }
  }

  /** Two objects agree under the empty top-level key. */
  predicate HiddenAgree(b: Json, a: Json) { b.Obj? && a.Obj? ==> Hidden(b) == Hidden(a) }

  lemma {:induction false} GetThroughHidden(j: Json, p: Path)
    requires j.Obj? && p != [] && p[0] == Key("")
    ensures Get(j, p) == if Hidden(j).Some? then Get(Hidden(j).value, p[1..]) else None
  {
  }

  lemma {:induction false} PathsStartVisibly(b: Json, a: Json)
    requires HiddenAgree(b, a)
    ensures forall i :: 0 <= i < |DiffRel([], b, a)| ==> NoEmptyTop(DiffRel([], b, a)[i].path)
  {
    var cs := DiffRel([], b, a);
    ChangesAreReal([], b, a);
    if b.Arr? && a.Arr? && |b.items| == |a.items| { ItemsApart([], b, a, |b.items|); }
    forall i | 0 <= i < |cs| ensures NoEmptyTop(cs[i].path) {
      assert Real(b, a, cs[i]);
      if b.Obj? && a.Obj? && cs[i].path != [] && cs[i].path[0] == Key("") {
        GetThroughHidden(b, cs[i].path);
        GetThroughHidden(a, cs[i].path);
      }
    }
  }

  lemma DecodeOfShown(cs: seq<Change>)
    requires forall i :: 0 <= i < |cs| ==> NoEmptyTop(cs[i].path)
    ensures DecodeAll(ShowAll([], cs)) == cs
  {
    forall i | 0 <= i < |cs| ensures Decode(Shown([], cs[i])) == cs[i] {
      assert [] + cs[i].path == cs[i].path;
      ReadOfPrint(cs[i].path);
    }
  }

  lemma {:induction false} MergeHidden(b: Json, a: Json)
    requires HiddenAgree(b, a)
    ensures Hidden(Merge([], b, a)) == Hidden(a)
  {
    if b.Obj? && a.Obj? && "" in a.fields {
      MergeSelf([] + [Key("")], a.fields[""]);
    }
  }

  lemma {:induction false} ReportPatchesVisibly(b: Json, a: Json, r: seq<FieldChange>)
    requires HiddenAgree(b, a)
    requires multiset(r) == multiset(ShowAll([], DiffRel([], b, a)))
    ensures Essence(ApplyAll(b, DecodeAll(r))) == Essence(a)
  {
    var cs := DiffRel([], b, a);
    PathsStartVisibly(b, a);
    DecodeOfShown(cs);
    DecodeAnyOrder(r, ShowAll([], cs));
    PathsAreApart([], b, a);
    AnyOrder(b, cs, DecodeAll(r));
    DiffIsAPatch(b, a);
    PatchGivesMerge([], b, a);
    EmptyIffStripEqual([], Merge([], b, a), a);
    MergeHidden(b, a);
    SameEssence(Merge([], b, a), a);
  }

  // What a text loses when its path starts with an empty key.

  lemma {:induction false} GetConcat(j: Json, p: Path, q: Path)
    ensures Get(j, p + q) == if Get(j, p).Some? then Get(Get(j, p).value, q) else None
    decreases |p|
  {
    if p == [] {
      assert p + q == q;
    } else {
      assert (p + q)[1..] == p[1..] + q;
      match p[0] {
        case Key(k) => if j.Obj? && k in j.fields { GetConcat(j.fields[k], p[1..], q); }
        case Idx(i) => if j.Arr? && i < |j.items| { GetConcat(j.items[i], p[1..], q); }
      }
    }
  }

  /** No value stands inside itself. */
  lemma {:induction false} NotInsideItself(j: Json, p: Path)
    requires p != []
    ensures Get(j, p) != Some(j)
    decreases j
  {
    if Get(j, p) == Some(j) {
      assert [p[0]] + p[1..] == p && [p[0]][1..] == [];
      GetConcat(j, [p[0]], p[1..]);
      var child := Get(j, [p[0]]).value;
      GetConcat(child, p[1..], [p[0]]);
      NotInsideItself(child, p[1..] + [p[0]]);
    }
  }

  /** `j` is no object with the hidden member of `a`. */
  predicate Astray(j: Json, a: Json) { j.Obj? ==> Hidden(j) != Hidden(a) }

  lemma {:induction false} EditKeepsHidden(j: Json, p: Path, v: Option<Json>)
    requires p != [] && NoEmptyTop(p)
    ensures (Edit(j, p, v).Obj? <==> j.Obj?) && Hidden(Edit(j, p, v)) == Hidden(j)
  {
  }

  lemma {:induction false} ReadOfAnyPrint(p: Path)
    ensures Read(Print(p)) == Some(Visible(p))
  {
    PrintOfVisible(p);
    ReadOfPrint(Visible(p));
  }

  lemma {:induction false} NothingVisible(p: Path)
    requires Visible(p) == [] && p != []
    ensures p[0] == Key("")
  {
  }

  /** What stands below the hidden member does not have it as its own. */
  lemma {:induction false} BelowHidden(a: Json, p: Path)
    requires a.Obj? && p != [] && p[0] == Key("") && Get(a, p).Some?
    ensures Astray(Get(a, p).value, a)
  {
    GetThroughHidden(a, p);
    var x, y := Get(a, p).value, Hidden(a).value;
    if x.Obj? && Hidden(x).Some? {
      GetMember(x, "");
      GetConcat(y, p[1..], [Key("")]);
      NotInsideItself(y, p[1..] + [Key("")]);
    }
  }

  lemma ReadChangeStaysAstray(b: Json, a: Json, c: Change, j: Json)
    requires b.Obj? && a.Obj? && c.path != [] && Real(b, a, c) && Astray(j, a)
    ensures Astray(Apply(j, Decode(Shown([], c))), a)
  {
    var d := Decode(Shown([], c));
    assert [] + c.path == c.path;
    ReadOfAnyPrint(c.path);
    if d.path != [] {
      EditKeepsHidden(j, d.path, NewValue(d));
    } else {
      NothingVisible(c.path);
      if !c.removed { BelowHidden(a, c.path); }
    }
  }

  lemma {:induction false} ReadChangesStayAstray(b: Json, a: Json, r: seq<FieldChange>, j: Json)
    requires b.Obj? && a.Obj? && Astray(j, a)
    requires forall x :: x in r ==> exists c: Change :: c.path != [] && Real(b, a, c) && x == Shown([], c)
    ensures Astray(ApplyAll(j, DecodeAll(r)), a)
  {
    if r != [] {
      var init, x := r[..|r| - 1], r[|r| - 1];
      assert DecodeAll(r)[..|r| - 1] == DecodeAll(init);
      assert x in r && forall y :: y in init ==> y in r;
      var c: Change :| c.path != [] && Real(b, a, c) && x == Shown([], c);
      ReadChangesStayAstray(b, a, init, j);
      ReadChangeStaysAstray(b, a, c, ApplyAll(j, DecodeAll(init)));
    }
  }

  lemma {:induction false} ReportedAreReal(b: Json, a: Json, r: seq<FieldChange>)
    requires b.Obj? && a.Obj? && multiset(r) == multiset(ShowAll([], DiffRel([], b, a)))
    ensures forall x :: x in r ==> exists c: Change :: c.path != [] && Real(b, a, c) && x == Shown([], c)
  {
    var cs := DiffRel([], b, a);
    ChangesAreReal([], b, a);
    SortedKeysListSet(b.fields.Keys + a.fields.Keys);
    KeysApart([], b, a, SortedKeys(b.fields.Keys + a.fields.Keys));
    forall x | x in r ensures exists c: Change :: c.path != [] && Real(b, a, c) && x == Shown([], c) {
      assert x in multiset(ShowAll([], cs));
      var i :| 0 <= i < |cs| && ShowAll([], cs)[i] == x;
      assert Real(b, a, cs[i]);
    }
  }

  lemma AstrayDiffers(j: Json, a: Json)
    requires a.Obj? && Astray(j, a)
    ensures Essence(j) != Essence(a)
  {
    SameEssence(j, a);
  }

  /** THE REPORT IS A PATCH: reading its texts back and applying the changes, in any order, turns
      the first value into the second up to the documented fields, exactly when two objects agree
      under the empty top-level key. It is then empty exactly when there is nothing to do. */
  lemma {:induction false} ReportPatches(b: Json, a: Json, r: seq<FieldChange>)
    requires multiset(r) == multiset(ShowAll([], DiffRel([], b, a)))
    ensures Essence(ApplyAll(b, DecodeAll(r))) == Essence(a) <==> HiddenAgree(b, a)
    ensures HiddenAgree(b, a) ==> (r == [] <==> Essence(b) == Essence(a))
  {
    SameLength(r, ShowAll([], DiffRel([], b, a)));
    SameEssence(b, a);
    if HiddenAgree(b, a) {
      ReportPatchesVisibly(b, a, r);
    } else {
      ReportedAreReal(b, a, r);
      ReadChangesStayAstray(b, a, r, b);
      AstrayDiffers(ApplyAll(b, DecodeAll(r)), a);
    }
  }

  lemma {:induction false} PathsAreDistinct(b: Json, a: Json, r: seq<FieldChange>)
    requires HiddenAgree(b, a)
    requires multiset(r) == multiset(ShowAll([], DiffRel([], b, a)))
    ensures forall i, j :: 0 <= i < j < |r| ==> r[i].path != r[j].path
  {
    var cs := DiffRel([], b, a);
    var shown := ShowAll([], cs);
    PathsStartVisibly(b, a);
    PathsAreApart([], b, a);
    forall i, j | 0 <= i < j < |cs| ensures shown[i].path != shown[j].path {
      assert [] + cs[i].path == cs[i].path && [] + cs[j].path == cs[j].path;
      assert Apart(cs[i].path, cs[j].path);
      if Print(cs[i].path) == Print(cs[j].path) { PrintIsInjective(cs[i].path, cs[j].path); }
    }
    PathsOf(shown, r);
  }

  function TextsOf(cs: seq<FieldChange>): seq<string> {
    seq(|cs|, i requires 0 <= i < |cs| => cs[i].path)
  }

  lemma {:induction false} TextsAnyOrder(a: seq<FieldChange>, b: seq<FieldChange>)
    requires multiset(a) == multiset(b)
    ensures multiset(TextsOf(a)) == multiset(TextsOf(b))
    decreases |b|
  {
    SameLength(a, b);
    if b != [] {
      var u, x, v, init := TakeOut(a, b);
      TextsAnyOrder(u + v, init);
      assert TextsOf(a) == TextsOf(u) + [x.path] + TextsOf(v);
      assert TextsOf(u + v) == TextsOf(u) + TextsOf(v);
      assert TextsOf(b) == TextsOf(init) + [x.path];
    }
  }

  lemma PathsOf(a: seq<FieldChange>, b: seq<FieldChange>)
    requires multiset(a) == multiset(b) && Distinct(TextsOf(a))
    ensures Distinct(TextsOf(b))
    ensures forall i, j :: 0 <= i < j < |b| ==> b[i].path != b[j].path
  {
    TextsAnyOrder(a, b);
    DistinctPermutation(TextsOf(a), TextsOf(b));
    assert forall i :: 0 <= i < |b| ==> TextsOf(b)[i] == b[i].path;
  }

  /** Two different changes with one text. */
  ghost predicate Ambiguous(r: seq<FieldChange>) {
    exists i, j :: 0 <= i < j < |r| && r[i].path == r[j].path && r[i] != r[j]
  }

  lemma UnambiguousHasNoTies(r: seq<FieldChange>)
    requires !Ambiguous(r)
    ensures NoTies(multiset(r), PathAtMost)
  {
    forall x, y | x in multiset(r) && y in multiset(r) && PathAtMost(x, y) && PathAtMost(y, x) ensures x == y {
      var i :| 0 <= i < |r| && r[i] == x;
      var j :| 0 <= j < |r| && r[j] == y;
      if Before(x.path, y.path) { BeforeIsAsymmetric(x.path, y.path); }
      assert r[i].path == r[j].path;
    }
  }

  /** Two changes with one text can change places. */
  lemma Swapped(r: seq<FieldChange>, i: nat, j: nat) returns (r': seq<FieldChange>)
    requires i < j < |r| && r[i].path == r[j].path && r[i] != r[j] && Sorted(r, PathAtMost)
    ensures multiset(r') == multiset(r) && Sorted(r', PathAtMost) && r' != r
  {
    r' := r[i := r[j]][j := r[i]];
    assert r'[i] != r[i];
    forall k, l | 0 <= k < l < |r'| ensures PathAtMost(r'[k], r'[l]) {
      assert r'[k].path == r[k].path && r'[l].path == r[l].path && PathAtMost(r[k], r[l]);
    }
  }

  /** `sort.Slice` is not stable; the order of a sorted report is left to chance exactly when two
      different changes have one text, which two objects that agree under the empty top-level key
      never have. */
  lemma {:induction false} ReportIsDetermined(b: Json, a: Json, r: seq<FieldChange>)
    requires multiset(r) == multiset(ShowAll([], DiffRel([], b, a))) && Sorted(r, PathAtMost)
    ensures (forall r' :: multiset(r') == multiset(r) && Sorted(r', PathAtMost) ==> r' == r) <==> !Ambiguous(r)
    ensures HiddenAgree(b, a) ==> !Ambiguous(r)
  {
    if HiddenAgree(b, a) { PathsAreDistinct(b, a, r); }
    if Ambiguous(r) {
      var i, j :| 0 <= i < j < |r| && r[i].path == r[j].path && r[i] != r[j];
      var r' := Swapped(r, i, j);
    } else {
      UnambiguousHasNoTies(r);
      forall r' | multiset(r') == multiset(r) && Sorted(r', PathAtMost) ensures r' == r {
        SortedIsUnique(r, r', PathAtMost);
      }
    }
  }
}
