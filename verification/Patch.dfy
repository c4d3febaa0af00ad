/** The diff read as a patch: applied to the first value it yields the second, up to what the
    diff ignores. */
module Patch {
  import opened Text
  import opened Seqs
  import opened Keys
  import opened Json
  import opened Paths
  import opened Diff

  // ---------------------------------------------------------------- editing at a path

  function SetKey(m: map<string, Json>, k: string, v: Option<Json>): map<string, Json> {
    match v case Some(x) => m[k := x] case None => m - {k}
  }

  function Lookup(m: map<string, Json>, k: string): Option<Json> {
    if k in m then Some(m[k]) else None
  }

  /** Sets (`Some`) or removes (`None`) what stands at `p`; a path that leads nowhere changes
      nothing. */
  function Edit(j: Json, p: Path, v: Option<Json>): Json
    decreases |p|, 1
  {
    if p == [] then v.GetOr(Null)
    else match p[0]
      case Key(k) => if j.Obj? then Obj(SetKey(j.fields, k, EditMember(Lookup(j.fields, k), p[1..], v))) else j
      case Idx(i) => if j.Arr? && i < |j.items| then Arr(j.items[i := Edit(j.items[i], p[1..], v)]) else j
  }

  function EditMember(j: Option<Json>, rest: Path, v: Option<Json>): Option<Json>
    decreases |rest|, 2
  {
    if rest == [] then v else match j case Some(x) => Some(Edit(x, rest, v)) case None => None
  }

  function NewValue(c: Change): Option<Json> { if c.removed then None else Some(c.after) }

  function Apply(j: Json, c: Change): Json { Edit(j, c.path, NewValue(c)) }

  function ApplyAll(j: Json, cs: seq<Change>): Json {
    if cs == [] then j else Apply(ApplyAll(j, cs[..|cs| - 1]), cs[|cs| - 1])
  }

  lemma {:induction false} ApplySnoc(j: Json, cs: seq<Change>, c: Change)
    ensures ApplyAll(j, cs + [c]) == Apply(ApplyAll(j, cs), c)
  {
    assert (cs + [c])[..|cs|] == cs;
  }

  lemma {:induction false} ApplyConcat(j: Json, cs: seq<Change>, ds: seq<Change>)
    ensures ApplyAll(j, cs + ds) == ApplyAll(ApplyAll(j, cs), ds)
  {
    if ds == [] {
      assert cs + ds == cs;
    } else {
      var init, d := ds[..|ds| - 1], ds[|ds| - 1];
      assert cs + ds == (cs + init) + [d] && ds == init + [d];
      ApplyConcat(j, cs, init);
      ApplySnoc(j, cs + init, d);
      ApplySnoc(ApplyAll(j, cs), init, d);
    }
  }

  // ---------------------------------------------------------------- what the patch should leave

  predicate MergedHas(base: Path, b: map<string, Json>, a: map<string, Json>, done: set<string>, k: string) {
    if k in done && !Ignored(Visible(base), k) then k in a else k in b
  }

  /** `a` with the ignored members of `b`. */
  function Merge(base: Path, b: Json, a: Json): Json
    decreases b, 2
  {
    if b.Obj? && a.Obj? then Obj(MergeMaps(base, b, a, b.fields.Keys + a.fields.Keys))
    else if b.Arr? && a.Arr? && |b.items| == |a.items| then Arr(MergeItems(base, b, a, |b.items|))
    else a
  }

  /** Merged at the keys of `done`, and still `b` elsewhere. */
  function MergeMaps(base: Path, b: Json, a: Json, done: set<string>): map<string, Json>
    requires b.Obj? && a.Obj?
    decreases b, 1
  {
    map k | k in b.fields.Keys + a.fields.Keys && MergedHas(base, b.fields, a.fields, done, k) ::
      if k in done && !Ignored(Visible(base), k)
      then if k in b.fields then Merge(base + [Key(k)], b.fields[k], a.fields[k]) else a.fields[k]
      else b.fields[k]
  }

  function MergeItems(base: Path, b: Json, a: Json, n: nat): seq<Json>
    requires b.Arr? && a.Arr? && |b.items| == |a.items| && n <= |b.items|
    decreases b, 1
  {
    seq(|b.items|, i requires 0 <= i < |b.items| =>
      if i < n then Merge(base + [Idx(i)], b.items[i], a.items[i]) else b.items[i])
  }

  lemma {:induction false} MergeSelf(base: Path, j: Json)
    ensures Merge(base, j, j) == j
    decreases j
  {
    match j {
      case Obj(m) =>
        forall k | k in m ensures Merge(base + [Key(k)], m[k], m[k]) == m[k] { MergeSelf(base + [Key(k)], m[k]); }
        assert MergeMaps(base, j, j, m.Keys + m.Keys) == m;
      case Arr(s) =>
        forall i | 0 <= i < |s| ensures Merge(base + [Idx(i)], s[i], s[i]) == s[i] { MergeSelf(base + [Idx(i)], s[i]); }
        assert MergeItems(base, j, j, |s|) == s;
      case _ =>
    }
  }

  // ---------------------------------------------------------------- the diff patches

  ghost predicate Below(cs: seq<Change>) { forall i :: 0 <= i < |cs| ==> cs[i].path != [] }

  /** The whole value is set, never removed. */
  ghost predicate SetsRoot(cs: seq<Change>) { forall i :: 0 <= i < |cs| && cs[i].path == [] ==> !cs[i].removed }

  lemma {:induction false} KeysAreBelow(base: Path, b: Json, a: Json, ks: seq<string>)
    requires b.Obj? && a.Obj?
    ensures Below(DiffKeys(base, b, a, ks))
  {
    if ks != [] { KeysAreBelow(base, b, a, ks[..|ks| - 1]); }
  }

  lemma {:induction false} ItemsAreBelow(base: Path, b: Json, a: Json, n: nat)
    requires b.Arr? && a.Arr? && n <= |b.items| && n <= |a.items|
    ensures Below(DiffItems(base, b, a, n))
  {
    if n > 0 { ItemsAreBelow(base, b, a, n - 1); }
  }

  lemma {:induction false} DiffSetsRoot(base: Path, b: Json, a: Json)
    ensures SetsRoot(DiffRel(base, b, a))
  {
    if b.Obj? && a.Obj? {
      KeysAreBelow(base, b, a, SortedKeys(b.fields.Keys + a.fields.Keys));
    } else if b.Arr? && a.Arr? && |b.items| == |a.items| {
      ItemsAreBelow(base, b, a, |b.items|);
    }
  }

  lemma UnderSnoc(t: Tok, cs: seq<Change>)
    requires cs != []
    ensures Under(t, cs) == Under(t, cs[..|cs| - 1]) + [At(t, cs[|cs| - 1])]
  {
  }

  lemma ApplyAtKey(m: map<string, Json>, k: string, c: Change)
    requires k in m && (c.path == [] ==> !c.removed)
    ensures Apply(Obj(m), At(Key(k), c)) == Obj(m[k := Apply(m[k], c)])
  {
    assert ([Key(k)] + c.path)[1..] == c.path;
    assert EditMember(Some(m[k]), c.path, NewValue(c)) == Some(Apply(m[k], c));
  }

  lemma {:induction false} ApplyUnderKey(m: map<string, Json>, k: string, cs: seq<Change>)
    requires k in m && SetsRoot(cs)
    ensures ApplyAll(Obj(m), Under(Key(k), cs)) == Obj(m[k := ApplyAll(m[k], cs)])
  {
    if cs == [] {
      assert m[k := m[k]] == m;
    } else {
      var init, c := cs[..|cs| - 1], cs[|cs| - 1];
      UnderSnoc(Key(k), cs);
      ApplyUnderKey(m, k, init);
      var m' := m[k := ApplyAll(m[k], init)];
      ApplySnoc(Obj(m), Under(Key(k), init), At(Key(k), c));
      ApplyAtKey(m', k, c);
      assert m'[k := Apply(m'[k], c)] == m[k := Apply(m'[k], c)];
    }
  }

  lemma {:induction false} ApplyUnderIdx(s: seq<Json>, n: nat, cs: seq<Change>)
    requires n < |s|
    ensures ApplyAll(Arr(s), Under(Idx(n), cs)) == Arr(s[n := ApplyAll(s[n], cs)])
  {
    if cs == [] {
      assert s[n := s[n]] == s;
    } else {
      var init, c := cs[..|cs| - 1], cs[|cs| - 1];
      UnderSnoc(Idx(n), cs);
      ApplyUnderIdx(s, n, init);
      var s' := s[n := ApplyAll(s[n], init)];
      ApplySnoc(Arr(s), Under(Idx(n), init), At(Idx(n), c));
      assert s'[n := Apply(s'[n], c)] == s[n := Apply(s'[n], c)];
    }
  }

  lemma ApplyHere(m: map<string, Json>, k: string, c: Change)
    requires c.path == [Key(k)]
    ensures ApplyAll(Obj(m), [c]) == Obj(SetKey(m, k, NewValue(c)))
  {
    assert c.path[0] == Key(k) && c.path[1..] == [];
    assert EditMember(Lookup(m, k), c.path[1..], NewValue(c)) == NewValue(c);
  }

  lemma {:induction false} PatchSharedKey(base: Path, b: Json, a: Json, done: set<string>, k: string)
    requires b.Obj? && a.Obj? && k !in done && k in b.fields && k in a.fields && !Ignored(Visible(base), k)
    requires var p := base + [Key(k)];
             ApplyAll(b.fields[k], DiffRel(p, b.fields[k], a.fields[k])) == Merge(p, b.fields[k], a.fields[k])
    ensures ApplyAll(Obj(MergeMaps(base, b, a, done)), DiffKey(base, b, a, k)) == Obj(MergeMaps(base, b, a, done + {k}))
  {
    var m, m' := MergeMaps(base, b, a, done), MergeMaps(base, b, a, done + {k});
    var p := base + [Key(k)];
    var cs := DiffRel(p, b.fields[k], a.fields[k]);
    DiffSetsRoot(p, b.fields[k], a.fields[k]);
    ApplyUnderKey(m, k, cs);
    assert m[k] == b.fields[k];
    assert m' == m[k := Merge(p, b.fields[k], a.fields[k])];
  }

  lemma {:induction false} PatchRemovedKey(base: Path, b: Json, a: Json, done: set<string>, k: string)
    requires b.Obj? && a.Obj? && k !in done && !Ignored(Visible(base), k) && k in b.fields && k !in a.fields
    ensures ApplyAll(Obj(MergeMaps(base, b, a, done)), DiffKey(base, b, a, k)) == Obj(MergeMaps(base, b, a, done + {k}))
  {
    var m := MergeMaps(base, b, a, done);
    ApplyHere(m, k, Change([Key(k)], b.fields[k], Null, false, true));
    assert MergeMaps(base, b, a, done + {k}) == m - {k};
  }

  lemma {:induction false} PatchAddedKey(base: Path, b: Json, a: Json, done: set<string>, k: string)
    requires b.Obj? && a.Obj? && k !in done && !Ignored(Visible(base), k) && k !in b.fields && k in a.fields
    ensures ApplyAll(Obj(MergeMaps(base, b, a, done)), DiffKey(base, b, a, k)) == Obj(MergeMaps(base, b, a, done + {k}))
  {
    var m := MergeMaps(base, b, a, done);
    ApplyHere(m, k, Change([Key(k)], Null, a.fields[k], true, false));
    assert MergeMaps(base, b, a, done + {k}) == m[k := a.fields[k]];
  }

  /** One key of the loop. */
  lemma {:induction false} PatchKey(base: Path, b: Json, a: Json, done: set<string>, k: string)
    requires b.Obj? && a.Obj? && k !in done && k in b.fields.Keys + a.fields.Keys
    requires k in b.fields && k in a.fields ==>
               var p := base + [Key(k)];
               ApplyAll(b.fields[k], DiffRel(p, b.fields[k], a.fields[k])) == Merge(p, b.fields[k], a.fields[k])
    ensures ApplyAll(Obj(MergeMaps(base, b, a, done)), DiffKey(base, b, a, k)) == Obj(MergeMaps(base, b, a, done + {k}))
  {
    if Ignored(Visible(base), k) {
      assert MergeMaps(base, b, a, done + {k}) == MergeMaps(base, b, a, done);
    } else if k in b.fields && k in a.fields {
      PatchSharedKey(base, b, a, done, k);
    } else if k in b.fields {
      PatchRemovedKey(base, b, a, done, k);
    } else {
      PatchAddedKey(base, b, a, done, k);
    }
  }

  function Elements(ks: seq<string>): set<string> { set k | k in ks }

  lemma {:induction false} PatchKeys(base: Path, b: Json, a: Json, ks: seq<string>)
    requires b.Obj? && a.Obj? && Distinct(ks) && Elements(ks) <= b.fields.Keys + a.fields.Keys
    ensures ApplyAll(b, DiffKeys(base, b, a, ks)) == Obj(MergeMaps(base, b, a, Elements(ks)))
    decreases b, 0, |ks|
  {
    if ks == [] {
      assert MergeMaps(base, b, a, {}) == b.fields;
    } else {
      var init, k := ks[..|ks| - 1], ks[|ks| - 1];
      assert Elements(ks) == Elements(init) + {k};
      PatchKeys(base, b, a, init);
      if k in b.fields && k in a.fields { PatchGivesMerge(base + [Key(k)], b.fields[k], a.fields[k]); }
      PatchKey(base, b, a, Elements(init), k);
      ApplyConcat(b, DiffKeys(base, b, a, init), DiffKey(base, b, a, k));
    }
  }

  lemma {:induction false} PatchItems(base: Path, b: Json, a: Json, n: nat)
    requires b.Arr? && a.Arr? && |b.items| == |a.items| && n <= |b.items|
    ensures ApplyAll(b, DiffItems(base, b, a, n)) == Arr(MergeItems(base, b, a, n))
    decreases b, 0, n
  {
    if n == 0 {
      assert MergeItems(base, b, a, 0) == b.items;
    } else {
      var i := n - 1;
      var p := base + [Idx(i)];
      var cs := DiffRel(p, b.items[i], a.items[i]);
      PatchItems(base, b, a, i);
      PatchGivesMerge(p, b.items[i], a.items[i]);
      ApplyUnderIdx(MergeItems(base, b, a, i), i, cs);
      assert DiffItems(base, b, a, n) == DiffItems(base, b, a, i) + Under(Idx(i), cs);
      ApplyConcat(b, DiffItems(base, b, a, i), Under(Idx(i), cs));
      MergeItemsNext(base, b, a, i);
    }
  }

  lemma MergeItemsNext(base: Path, b: Json, a: Json, i: nat)
    requires b.Arr? && a.Arr? && |b.items| == |a.items| && i < |b.items|
    ensures MergeItems(base, b, a, i)[i] == b.items[i]
    ensures MergeItems(base, b, a, i + 1) ==
            MergeItems(base, b, a, i)[i := Merge(base + [Idx(i)], b.items[i], a.items[i])]
  {
  }

  /** What patching leaves, exactly: the second value with the first one's ignored members. */
  lemma {:induction false} PatchGivesMerge(base: Path, b: Json, a: Json)
    ensures ApplyAll(b, DiffRel(base, b, a)) == Merge(base, b, a)
    decreases b, 1, 0
  {
    if b == a {
      MergeSelf(base, b);
    } else if b.Obj? && a.Obj? {
      var keys := b.fields.Keys + a.fields.Keys;
      SortedKeysListSet(keys);
      assert Elements(SortedKeys(keys)) == keys;
      PatchKeys(base, b, a, SortedKeys(keys));
    } else if b.Arr? && a.Arr? && |b.items| == |a.items| {
      PatchItems(base, b, a, |b.items|);
    }
  }

  // ---------------------------------------------------------------- equal but for ignored fields

  /** `j` without the fields ignored below `base`. With `literal`, ignoring goes by the path
      itself; without, by the path as printed, which drops empty leading keys. */
  function Strip(literal: bool, base: Path, j: Json): Json
    decreases j
  {
    match j
    case Obj(m) => Obj(map k | k in m && !Ignored(Scope(literal, base), k) :: Strip(literal, base + [Key(k)], m[k]))
    case Arr(s) => Arr(seq(|s|, i requires 0 <= i < |s| => Strip(literal, base + [Idx(i)], s[i])))
    case _ => j
  }

  lemma {:induction false} StripOfMerge(base: Path, b: Json, a: Json)
    ensures Strip(false, base, Merge(base, b, a)) == Strip(false, base, a)
    decreases b
  {
    if b.Obj? && a.Obj? {
      var m := Merge(base, b, a).fields;
      assert forall k :: k in m && !Ignored(Visible(base), k) <==> k in a.fields && !Ignored(Visible(base), k);
      forall k | k in a.fields && !Ignored(Visible(base), k)
        ensures Strip(false, base + [Key(k)], m[k]) == Strip(false, base + [Key(k)], a.fields[k])
      {
        if k in b.fields { StripOfMerge(base + [Key(k)], b.fields[k], a.fields[k]); }
      }
      assert Strip(false, base, Merge(base, b, a)).fields == Strip(false, base, a).fields;
    } else if b.Arr? && a.Arr? && |b.items| == |a.items| {
      forall i | 0 <= i < |b.items|
        ensures Strip(false, base + [Idx(i)], Merge(base + [Idx(i)], b.items[i], a.items[i])) ==
                  Strip(false, base + [Idx(i)], a.items[i])
      {
        StripOfMerge(base + [Idx(i)], b.items[i], a.items[i]);
      }
      assert Strip(false, base, Merge(base, b, a)).items == Strip(false, base, a).items;
    }
  }

  /** APPLYING THE DIFF TO THE FIRST VALUE GIVES THE SECOND, up to the ignored fields. */
  lemma {:induction false} DiffIsAPatch(b: Json, a: Json)
    ensures Strip(false, [], ApplyAll(b, DiffRel([], b, a))) == Strip(false, [], a)
  {
    PatchGivesMerge([], b, a);
    StripOfMerge([], b, a);
  }

  // ---------------------------------------------------------------- when the diff is empty

  ghost predicate SameKey(base: Path, b: Json, a: Json, k: string)
    requires b.Obj? && a.Obj?
  {
    !Ignored(Visible(base), k) ==>
      (k in b.fields <==> k in a.fields) && (k in b.fields ==> DiffRel(base + [Key(k)], b.fields[k], a.fields[k]) == [])
  }

  lemma {:induction false} NoKeyChanges(base: Path, b: Json, a: Json, ks: seq<string>)
    requires b.Obj? && a.Obj?
    ensures DiffKeys(base, b, a, ks) == [] <==> forall k :: k in ks ==> SameKey(base, b, a, k)
  {
    if ks != [] {
      var init, k := ks[..|ks| - 1], ks[|ks| - 1];
      assert ks == init + [k];
      NoKeyChanges(base, b, a, init);
      assert DiffKey(base, b, a, k) == [] <==> SameKey(base, b, a, k);
    }
  }

  lemma {:induction false} NoItemChanges(base: Path, b: Json, a: Json, n: nat)
    requires b.Arr? && a.Arr? && n <= |b.items| && n <= |a.items|
    ensures DiffItems(base, b, a, n) == [] <==>
            forall i :: 0 <= i < n ==> DiffRel(base + [Idx(i)], b.items[i], a.items[i]) == []
  {
    if n > 0 {
      NoItemChanges(base, b, a, n - 1);
    }
  }

  function Scope(literal: bool, base: Path): Path { if literal then base else Visible(base) }

  /** The member `k` survives stripping alike on both sides. */
  ghost predicate KeyAlike(literal: bool, base: Path, b: Json, a: Json, k: string)
    requires b.Obj? && a.Obj?
  {
    && (k in b.fields <==> k in a.fields)
    && (k in b.fields ==> Strip(literal, base + [Key(k)], b.fields[k]) == Strip(literal, base + [Key(k)], a.fields[k]))
  }

  lemma {:induction false} StripMember(literal: bool, base: Path, j: Json, k: string)
    requires j.Obj?
    ensures var s := Strip(literal, base, j);
            && s.Obj?
            && Lookup(s.fields, k) == if k in j.fields && !Ignored(Scope(literal, base), k)
                                      then Some(Strip(literal, base + [Key(k)], j.fields[k])) else None
  {
  }

  lemma {:induction false} StripKeys(literal: bool, base: Path, b: Json, a: Json)
    requires b.Obj? && a.Obj?
    ensures Strip(literal, base, b) == Strip(literal, base, a) <==>
            forall k :: !Ignored(Scope(literal, base), k) ==> KeyAlike(literal, base, b, a, k)
  {
    var x, y := Strip(literal, base, b), Strip(literal, base, a);
    forall k ensures Lookup(x.fields, k) == Lookup(y.fields, k) <==>
                     (!Ignored(Scope(literal, base), k) ==> KeyAlike(literal, base, b, a, k))
    {
      StripMember(literal, base, b, k);
      StripMember(literal, base, a, k);
    }
    SameMaps(x.fields, y.fields);
  }

  lemma SameMaps(m: map<string, Json>, n: map<string, Json>)
    ensures m == n <==> forall k :: Lookup(m, k) == Lookup(n, k)
  {
    if forall k :: Lookup(m, k) == Lookup(n, k) {
      forall k ensures k in m <==> k in n {
        assert Lookup(m, k) == Lookup(n, k);
      }
      forall k | k in m ensures k in n && m[k] == n[k] {
        assert Lookup(m, k) == Lookup(n, k);
      }
    }
  }

  lemma {:induction false} StripKind(literal: bool, base: Path, j: Json)
    ensures j.Obj? <==> Strip(literal, base, j).Obj?
    ensures j.Arr? <==> Strip(literal, base, j).Arr?
    ensures j.Arr? ==> |Strip(literal, base, j).items| == |j.items|
    ensures !j.Obj? && !j.Arr? ==> Strip(literal, base, j) == j
  {
  }

  lemma {:induction false} StripItems(literal: bool, base: Path, b: Json, a: Json)
    requires b.Arr? && a.Arr? && |b.items| == |a.items|
    ensures Strip(literal, base, b) == Strip(literal, base, a) <==>
            forall i :: 0 <= i < |b.items| ==>
              Strip(literal, base + [Idx(i)], b.items[i]) == Strip(literal, base + [Idx(i)], a.items[i])
  {
    var x, y := Strip(literal, base, b).items, Strip(literal, base, a).items;
    assert forall i :: 0 <= i < |b.items| ==> x[i] == Strip(literal, base + [Idx(i)], b.items[i]);
    assert forall i :: 0 <= i < |b.items| ==> y[i] == Strip(literal, base + [Idx(i)], a.items[i]);
  }

  /** The diff of two values is empty exactly when they are equal without the ignored fields. */
  lemma {:induction false} EmptyIffStripEqual(base: Path, b: Json, a: Json)
    ensures DiffRel(base, b, a) == [] <==> Strip(false, base, b) == Strip(false, base, a)
    decreases b
  {
    StripKind(false, base, b);
    StripKind(false, base, a);
    if b == a {
    } else if b.Obj? && a.Obj? {
      var keys := b.fields.Keys + a.fields.Keys;
      SortedKeysListSet(keys);
      NoKeyChanges(base, b, a, SortedKeys(keys));
      StripKeys(false, base, b, a);
      forall k | k in b.fields && k in a.fields
        ensures DiffRel(base + [Key(k)], b.fields[k], a.fields[k]) == [] <==>
                Strip(false, base + [Key(k)], b.fields[k]) == Strip(false, base + [Key(k)], a.fields[k])
      {
        EmptyIffStripEqual(base + [Key(k)], b.fields[k], a.fields[k]);
      }
      EmptyOnKeys(base, b, a, keys);
    } else if b.Arr? && a.Arr? && |b.items| == |a.items| {
      NoItemChanges(base, b, a, |b.items|);
      StripItems(false, base, b, a);
      forall i | 0 <= i < |b.items|
        ensures DiffRel(base + [Idx(i)], b.items[i], a.items[i]) == [] <==>
                Strip(false, base + [Idx(i)], b.items[i]) == Strip(false, base + [Idx(i)], a.items[i])
      {
        EmptyIffStripEqual(base + [Idx(i)], b.items[i], a.items[i]);
      }
    }
  }

  lemma {:induction false} EmptyOnKeys(base: Path, b: Json, a: Json, keys: set<string>)
    requires b.Obj? && a.Obj? && keys == b.fields.Keys + a.fields.Keys
    requires forall k :: k in b.fields && k in a.fields ==>
               (DiffRel(base + [Key(k)], b.fields[k], a.fields[k]) == [] <==>
                Strip(false, base + [Key(k)], b.fields[k]) == Strip(false, base + [Key(k)], a.fields[k]))
    ensures (forall k :: k in keys ==> SameKey(base, b, a, k)) <==>
            forall k :: !Ignored(Visible(base), k) ==> KeyAlike(false, base, b, a, k)
  {
    assert forall k :: (k in keys ==> SameKey(base, b, a, k)) <==>
      (!Ignored(Visible(base), k) ==> KeyAlike(false, base, b, a, k));
    if forall k :: k in keys ==> SameKey(base, b, a, k) {
      forall k | !Ignored(Visible(base), k) ensures KeyAlike(false, base, b, a, k) {
        assert k in keys ==> SameKey(base, b, a, k);
      }
    }
  }

  // Ignoring by the path itself. The two readings differ only below an empty first key.

  lemma {:induction false} StripAgrees(base: Path, j: Json)
    requires base != [] && base[0] != Key("")
    ensures Strip(true, base, j) == Strip(false, base, j)
    decreases j
  {
    match j {
      case Obj(m) =>
        forall k | k in m ensures Strip(true, base + [Key(k)], m[k]) == Strip(false, base + [Key(k)], m[k]) {
          StripAgrees(base + [Key(k)], m[k]);
        }
        assert Strip(true, base, j).fields == Strip(false, base, j).fields;
      case Arr(s) =>
        forall i | 0 <= i < |s| ensures Strip(true, base + [Idx(i)], s[i]) == Strip(false, base + [Idx(i)], s[i]) {
          StripAgrees(base + [Idx(i)], s[i]);
        }
        assert Strip(true, base, j).items == Strip(false, base, j).items;
      case _ =>
    }
  }

  lemma {:induction false} StripKeepsHidden(base: Path, j: Json)
    requires base != [] && base[0] == Key("")
    ensures Strip(true, base, j) == j
    decreases j
  {
    match j {
      case Obj(m) =>
        forall k | k in m ensures Strip(true, base + [Key(k)], m[k]) == m[k] {
          StripKeepsHidden(base + [Key(k)], m[k]);
        }
        assert Strip(true, base, j).fields == m;
      case Arr(s) =>
        forall i | 0 <= i < |s| ensures Strip(true, base + [Idx(i)], s[i]) == s[i] {
          StripKeepsHidden(base + [Idx(i)], s[i]);
        }
        assert Strip(true, base, j).items == s;
      case _ =>
    }
  }

  /** The member under the empty key. */
  function Hidden(j: Json): Option<Json> { if j.Obj? then Lookup(j.fields, "") else None }

  /** Without the fields the documentation names, and only those. */
  function Essence(j: Json): Json { Strip(true, [], j) }

  /** AN EMPTY DIFF MEANS EQUAL UP TO THE DOCUMENTED FIELDS if and only if the members under an
      empty top-level key agree too. */
  lemma {:induction false} SameEssence(x: Json, y: Json)
    ensures Essence(x) == Essence(y) <==> DiffRel([], x, y) == [] && Hidden(x) == Hidden(y)
  {
    EmptyIffStripEqual([], x, y);
    forall j, literal | j == x || j == y
      ensures (j.Obj? <==> Strip(literal, [], j).Obj?) && (j.Arr? <==> Strip(literal, [], j).Arr?)
      ensures j.Arr? ==> |Strip(literal, [], j).items| == |j.items|
      ensures !j.Obj? && !j.Arr? ==> Strip(literal, [], j) == j
    {
      StripKind(literal, [], j);
    }
    if x.Obj? && y.Obj? {
      StripKeys(true, [], x, y);
      StripKeys(false, [], x, y);
      forall k, j: Json | k != "" ensures Strip(true, [] + [Key(k)], j) == Strip(false, [] + [Key(k)], j) {
        StripAgrees([] + [Key(k)], j);
      }
      forall j: Json ensures Strip(true, [] + [Key("")], j) == j { StripKeepsHidden([] + [Key("")], j); }
      assert !Ignored([], "") && Visible([]) == [];
    } else if x.Arr? && y.Arr? && |x.items| == |y.items| {
      StripItems(true, [], x, y);
      StripItems(false, [], x, y);
      forall i: nat, j: Json ensures Strip(true, [] + [Idx(i)], j) == Strip(false, [] + [Idx(i)], j) {
        StripAgrees([] + [Idx(i)], j);
      }
    }
  }

  lemma {:induction false} StatusIsIgnored(base: Path, s: Json, t: Json)
    requires Visible(base) == []
    ensures DiffRel(base, Obj(map["status" := s]), Obj(map["status" := t])) == []
  {
    var u, v := Obj(map["status" := s]), Obj(map["status" := t]);
    assert forall k :: k in u.fields ==> k == "status";
    StripKeys(false, base, u, v);
    EmptyIffStripEqual(base, u, v);
  }

  /** The diff alone is not enough: "status" below an empty key is printed as a top-level
      "status", so no change of it is ever reported. */
  lemma HiddenStatusIsNotReported(s: Json, t: Json)
    requires s != t
    ensures var x, y := Obj(map["" := Obj(map["status" := s])]), Obj(map["" := Obj(map["status" := t])]);
            DiffRel([], x, y) == [] && Essence(x) != Essence(y)
  {
    var u, v := Obj(map["status" := s]), Obj(map["status" := t]);
    var x, y := Obj(map["" := u]), Obj(map["" := v]);
    assert u != v by { assert u.fields["status"] == s && v.fields["status"] == t; }
    var p: Path := [] + [Key("")];
    assert Visible(p) == [] by { assert p[1..] == []; }
    StatusIsIgnored(p, s, t);
    EmptyIffStripEqual(p, u, v);
    assert forall k :: k in x.fields ==> k == "";
    StripKeys(false, [], x, y);
    EmptyIffStripEqual([], x, y);
    SameEssence(x, y);
  }

  // ---------------------------------------------------------------- every change is one

  /** What stands at `p`. */
  function Get(j: Json, p: Path): Option<Json>
    decreases |p|
  {
    if p == [] then Some(j)
    else match p[0]
      case Key(k) => if j.Obj? && k in j.fields then Get(j.fields[k], p[1..]) else None
      case Idx(i) => if j.Arr? && i < |j.items| then Get(j.items[i], p[1..]) else None
  }

  /** The change shows what stands at its path on each side, and the sides differ there. */
  predicate Real(b: Json, a: Json, c: Change) {
    && Get(b, c.path) == (if c.added then None else Some(c.before))
    && Get(a, c.path) == (if c.removed then None else Some(c.after))
    && (c.added ==> c.before == Null) && (c.removed ==> c.after == Null)
    && !(c.added && c.removed) && (c.added || c.removed || c.before != c.after)
  }

  ghost predicate AllReal(b: Json, a: Json, cs: seq<Change>) { forall i :: 0 <= i < |cs| ==> Real(b, a, cs[i]) }

  lemma {:induction false} GetMember(j: Json, k: string)
    ensures Get(j, [Key(k)]) == Hold(j, k)
  {
    assert [Key(k)][1..] == [];
  }

  function Hold(j: Json, k: string): Option<Json> { if j.Obj? then Lookup(j.fields, k) else None }

  lemma {:induction false} KeysAreReal(base: Path, b: Json, a: Json, ks: seq<string>)
    requires b.Obj? && a.Obj?
    ensures AllReal(b, a, DiffKeys(base, b, a, ks))
    decreases b, 0, |ks|
  {
    if ks != [] {
      var k := ks[|ks| - 1];
      KeysAreReal(base, b, a, ks[..|ks| - 1]);
      GetMember(b, k);
      GetMember(a, k);
      if k in b.fields && k in a.fields {
        var p := base + [Key(k)];
        ChangesAreReal(p, b.fields[k], a.fields[k]);
      }
      assert AllReal(b, a, DiffKey(base, b, a, k));
    }
  }

  lemma {:induction false} ItemsAreReal(base: Path, b: Json, a: Json, n: nat)
    requires b.Arr? && a.Arr? && n <= |b.items| && n <= |a.items|
    ensures AllReal(b, a, DiffItems(base, b, a, n))
    decreases b, 0, n
  {
    if n > 0 {
      var i := n - 1;
      var p := base + [Idx(i)];
      ItemsAreReal(base, b, a, i);
      assert [Idx(i)][1..] == [];
      ChangesAreReal(p, b.items[i], a.items[i]);
    }
  }

  /** Every listed change is real: the path exists where it is said to, with the values shown. */
  lemma {:induction false} ChangesAreReal(base: Path, b: Json, a: Json)
    ensures AllReal(b, a, DiffRel(base, b, a))
    decreases b, 1, 0
  {
    if b == a {
    } else if b.Obj? && a.Obj? {
      KeysAreReal(base, b, a, SortedKeys(b.fields.Keys + a.fields.Keys));
    } else if b.Arr? && a.Arr? && |b.items| == |a.items| {
      ItemsAreReal(base, b, a, |b.items|);
    }
  }
}
