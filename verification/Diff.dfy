/** The semantic diff of two JSON objects (internal/materialize/diff.go), as a patch. */
module Diff {
  import opened Text
  import opened Seqs
  import opened Keys
  import opened Json
  import opened Paths

  // ---------------------------------------------------------------- what is ignored

  const METADATA_IGNORE_KEYS: set<string> :=
    {"uid", "resourceVersion", "creationTimestamp", "generation", "managedFields", "deletionTimestamp",
     "ownerReferences"}

  const LAST_APPLIED: string := "kubectl.kubernetes.io/last-applied-configuration"

  /** The test of the code, on the printed path. */
  predicate IgnoreKey(parentPath: string, key: string) {
    || (key == "status" && parentPath == "")
    || (parentPath == "metadata" && key in METADATA_IGNORE_KEYS)
    || (key == LAST_APPLIED && parentPath == "metadata.annotations")
  }

  /** The same test on tokens. */
  predicate Ignored(parent: Path, key: string) {
    || (key == "status" && parent == [])
    || (parent == [Key("metadata")] && key in METADATA_IGNORE_KEYS)
    || (key == LAST_APPLIED && parent == [Key("metadata"), Key("annotations")])
  }

  lemma {:induction false} EscPlain(k: string)
    requires Plain(k)
    ensures Esc(k) == k
  {
    if k != [] {
      EscPlain(k[1..]);
      assert [k[0]] + k[1..] == k;
    }
  }

  predicate Plain(k: string) { forall i :: 0 <= i < |k| ==> !Special(k[i]) }

  lemma {:induction false} PrintPlainKey(p: Path, k: string)
    requires Plain(k)
    ensures Print(p + [Key(k)]) == if Print(p) == "" then k else Print(p) + ['.'] + k
  {
    EscapeIsCharwise(k);
    EscPlain(k);
    assert (p + [Key(k)])[..|p|] == p;
  }

  lemma PrintOnePlain(a: string)
    requires Plain(a)
    ensures Print([Key(a)]) == a
  {
    PrintPlainKey([], a);
    assert [] + [Key(a)] == [Key(a)];
  }

  lemma PrintTwoPlain(a: string, b: string)
    requires Plain(a) && Plain(b) && a != ""
    ensures Print([Key(a), Key(b)]) == a + ['.'] + b
  {
    PrintOnePlain(a);
    PrintPlainKey([Key(a)], b);
    assert [Key(a)] + [Key(b)] == [Key(a), Key(b)];
  }

  lemma ScopeTexts()
    ensures Plain("metadata") && Plain("annotations")
    ensures "metadata" + ['.'] + "annotations" == "metadata.annotations"
  {
  }

  /** The code's test on texts is the test on tokens, empty leading keys dropped: no key that
      holds a '.', a bracket or a backslash is taken for another path. */
  lemma {:induction false} IgnoreKeyIsStructural(p: Path, key: string)
    ensures IgnoreKey(Print(p), key) <==> Ignored(Visible(p), key)
  {
    var m, n := [Key("metadata")], [Key("metadata"), Key("annotations")];
    ScopeTexts();
    PrintOnePlain("metadata");
    PrintTwoPlain("metadata", "annotations");
    PrintsAlike(p, []);
    PrintsAlike(p, m);
    PrintsAlike(p, n);
    assert Visible([]) == [] && Visible(m) == m && Visible(n) == n;
  }

  // ---------------------------------------------------------------- the changes

  /** A change below some point; `path` is relative to it. */
  datatype Change = Change(path: Path, before: Json, after: Json, added: bool, removed: bool)

  function At(t: Tok, c: Change): Change { c.(path := [t] + c.path) }

  function Under(t: Tok, cs: seq<Change>): seq<Change> {
    seq(|cs|, i requires 0 <= i < |cs| => At(t, cs[i]))
  }

  /** What the diff lists for two values standing at `base`. */
  ghost function DiffRel(base: Path, b: Json, a: Json): seq<Change>
    decreases b, 1, 0
  {
    if b == a then []
    else if b.Obj? && a.Obj? then DiffKeys(base, b, a, SortedKeys(b.fields.Keys + a.fields.Keys))
    else if b.Arr? && a.Arr? && |b.items| == |a.items| then DiffItems(base, b, a, |b.items|)
    else [Change([], b, a, false, false)]
  }

  ghost function DiffKeys(base: Path, b: Json, a: Json, ks: seq<string>): seq<Change>
    requires b.Obj? && a.Obj?
    decreases b, 0, |ks|
  {
    if ks == [] then [] else DiffKeys(base, b, a, ks[..|ks| - 1]) + DiffKey(base, b, a, ks[|ks| - 1])
  }

  ghost function DiffKey(base: Path, b: Json, a: Json, k: string): seq<Change>
    requires b.Obj? && a.Obj?
    decreases b, 0, 0
  {
    if Ignored(Visible(base), k) then []
    else if k in b.fields && k !in a.fields then [Change([Key(k)], b.fields[k], Null, false, true)]
    else if k !in b.fields && k in a.fields then [Change([Key(k)], Null, a.fields[k], true, false)]
    else if k in b.fields then Under(Key(k), DiffRel(base + [Key(k)], b.fields[k], a.fields[k]))
    else []
  }

  ghost function DiffItems(base: Path, b: Json, a: Json, n: nat): seq<Change>
    requires b.Arr? && a.Arr? && n <= |b.items| && n <= |a.items|
    decreases b, 0, n
  {
    if n == 0 then []
    else DiffItems(base, b, a, n - 1) + Under(Idx(n - 1), DiffRel(base + [Idx(n - 1)], b.items[n - 1], a.items[n - 1]))
  }

  /** A change as the code reports it; Go's nil is `Null`. */
  datatype FieldChange = FieldChange(path: string, before: Json, after: Json, added: bool, removed: bool)

  function Shown(base: Path, c: Change): FieldChange {
    FieldChange(Print(base + c.path), c.before, c.after, c.added, c.removed)
  }

  function ShowAll(base: Path, cs: seq<Change>): seq<FieldChange> {
    seq(|cs|, i requires 0 <= i < |cs| => Shown(base, cs[i]))
  }

  lemma ShowUnder(base: Path, t: Tok, cs: seq<Change>)
    ensures ShowAll(base, Under(t, cs)) == ShowAll(base + [t], cs)
  {
    forall i | 0 <= i < |cs| ensures ShowAll(base, Under(t, cs))[i] == ShowAll(base + [t], cs)[i] {
      assert base + ([t] + cs[i].path) == base + [t] + cs[i].path;
    }
  }

  lemma ShowOne(base: Path, c: Change)
    ensures ShowAll(base, [c]) == [Shown(base, c)]
  {
  }

  /** The list the code's `*out` points to. */
  class Changes {
    var items: seq<FieldChange>

    constructor ()
      ensures items == []
    {
      items := [];
    }

    method Add(c: FieldChange)
      modifies this
      ensures items == old(items) + [c]
    {
      items := items + [c];
    }
  }

  lemma {:induction false} DiffKeysNext(base: Path, b: Json, a: Json, ks: seq<string>, i: nat)
    requires b.Obj? && a.Obj? && i < |ks|
    ensures ShowAll(base, DiffKeys(base, b, a, ks[..i + 1])) ==
            ShowAll(base, DiffKeys(base, b, a, ks[..i])) + ShowAll(base, DiffKey(base, b, a, ks[i]))
  {
    assert ks[..i + 1][..i] == ks[..i];
  }

  lemma DiffItemsNext(base: Path, b: Json, a: Json, i: nat)
    requires b.Arr? && a.Arr? && i < |b.items| && i < |a.items|
    ensures ShowAll(base, DiffItems(base, b, a, i + 1)) ==
            ShowAll(base, DiffItems(base, b, a, i)) +
              ShowAll(base + [Idx(i)], DiffRel(base + [Idx(i)], b.items[i], a.items[i]))
  {
    var below := DiffRel(base + [Idx(i)], b.items[i], a.items[i]);
    ShowUnder(base, Idx(i), below);
  }

  /** `diffValue`, its two loops in methods of their own: appends to `out` the changes between two
      values at the path `base`. */
  method DiffValue(path: string, ghost base: Path, before: Json, after: Json, out: Changes)
    requires path == Print(base)
    modifies out
    ensures out.items == old(out.items) + ShowAll(base, DiffRel(base, before, after))
    decreases before, 2, 0
  {
    if before == after {
      assert out.items == old(out.items) + [];
      return;
    }
    if before.Obj? && after.Obj? {
      DiffMaps(path, base, before, after, out);
      return;
    }
    if before.Arr? && after.Arr? && |before.items| == |after.items| {
      DiffArrays(path, base, before, after, out);
      return;
    }
    ShowOne(base, Change([], before, after, false, false));
    assert base + [] == base;
    out.Add(FieldChange(path, before, after, false, false));
  }

  method DiffMaps(path: string, ghost base: Path, before: Json, after: Json, out: Changes)
    requires path == Print(base) && before.Obj? && after.Obj?
    modifies out
    ensures out.items == old(out.items) +
            ShowAll(base, DiffKeys(base, before, after, SortedKeys(before.fields.Keys + after.fields.Keys)))
    decreases before, 1, 1
  {
    var sorted := SortKeys(before.fields.Keys + after.fields.Keys);
    SortedKeysListSet(before.fields.Keys + after.fields.Keys);
    ghost var was, so: seq<FieldChange> := out.items, [];
    assert out.items == was + so;
    for n := 0 to |sorted|
      invariant out.items == was + so && so == ShowAll(base, DiffKeys(base, before, after, sorted[..n]))
    {
      assert sorted[n] in sorted;
      DiffKeysNext(base, before, after, sorted, n);
      ghost var below := DiffOneKey(path, base, before, after, sorted[n], out);
      Regroup(was, so, below);
      so := so + below;
    }
    assert sorted[..|sorted|] == sorted;
  }

  method DiffArrays(path: string, ghost base: Path, before: Json, after: Json, out: Changes)
    requires path == Print(base) && before.Arr? && after.Arr? && |before.items| == |after.items|
    modifies out
    ensures out.items == old(out.items) + ShowAll(base, DiffItems(base, before, after, |before.items|))
    decreases before, 1, 1
  {
    ghost var so: seq<FieldChange> := [];
    ghost var was := out.items;
    assert out.items == was + so;
    for i := 0 to |before.items|
      invariant out.items == was + so && so == ShowAll(base, DiffItems(base, before, after, i))
    {
      DiffItemsNext(base, before, after, i);
      ghost var below := DiffOneItem(path, base, before.items[i], after.items[i], i, out);
      Regroup(was, so, below);
      so := so + below;
    }
  }

  method DiffOneItem(path: string, ghost base: Path, b: Json, a: Json, i: nat, out: Changes)
      returns (ghost below: seq<FieldChange>)
    requires path == Print(base)
    modifies out
    ensures below == ShowAll(base + [Idx(i)], DiffRel(base + [Idx(i)], b, a))
    ensures out.items == old(out.items) + below
    decreases b, 3, 0
  {
    DiffValue(path + IndexText(i), base + [Idx(i)], b, a, out);
    below := ShowAll(base + [Idx(i)], DiffRel(base + [Idx(i)], b, a));
  }

  /** The body of the loop over the keys. */
  method DiffOneKey(path: string, ghost base: Path, before: Json, after: Json, k: string, out: Changes)
      returns (ghost below: seq<FieldChange>)
    requires path == Print(base) && before.Obj? && after.Obj? && k in before.fields.Keys + after.fields.Keys
    modifies out
    ensures below == ShowAll(base, DiffKey(base, before, after, k))
    ensures out.items == old(out.items) + below
    decreases before, 1, 0
  {
    below := ShowAll(base, DiffKey(base, before, after, k));
    IgnoreKeyIsStructural(base, k);
    if IgnoreKey(path, k) {
      assert below == [];
      return;
    }
    var childPath := JoinPath(path, k);
    if k in before.fields && k !in after.fields {
      ShowOne(base, Change([Key(k)], before.fields[k], Null, false, true));
      out.Add(FieldChange(childPath, before.fields[k], Null, false, true));
    } else if k !in before.fields && k in after.fields {
      ShowOne(base, Change([Key(k)], Null, after.fields[k], true, false));
      out.Add(FieldChange(childPath, Null, after.fields[k], true, false));
    } else {
      ShowUnder(base, Key(k), DiffRel(base + [Key(k)], before.fields[k], after.fields[k]));
      DiffValue(childPath, base + [Key(k)], before.fields[k], after.fields[k], out);
    }
  }

  // ---------------------------------------------------------------- sorting and whole objects

  predicate PathAtMost(c: FieldChange, d: FieldChange) { AtMost(c.path, d.path) }

  /** `sort.Slice` by path: some sorted arrangement. */
  method SortByPath(cs: seq<FieldChange>) returns (r: seq<FieldChange>)
    ensures multiset(r) == multiset(cs) && Sorted(r, PathAtMost)
  {
    r := SortBy(cs, PathAtMost);
    SortMultiset(cs, PathAtMost);
    AtMostIsTotalOrder();
    assert TotalOrder(PathAtMost);
    SortSorted(cs, PathAtMost);
  }

  /** `DiffObjects`; a payload is `None` when it is empty, and otherwise what `parseObject`
      makes of it. */
  method DiffObjects(before: Option<Json>, after: Option<Json>) returns (r: seq<FieldChange>)
    ensures before.Some? && after.Some? ==>
              multiset(r) == multiset(ShowAll([], DiffRel([], before.value, after.value))) && Sorted(r, PathAtMost)
    ensures before.None? && after.None? ==> r == []
    ensures before.None? && after.Some? ==> r == [FieldChange("", Null, after.value, true, false)]
    ensures before.Some? && after.None? ==> r == [FieldChange("", before.value, Null, false, true)]
  {
    if before.None? && after.None? { return []; }
    if before.None? { return [FieldChange("", Null, after.value, true, false)]; }
    if after.None? { return [FieldChange("", before.value, Null, false, true)]; }
    var out := new Changes();
    DiffValue("", [], before.value, after.value, out);
    r := SortByPath(out.items);
  }
}
