/** The API server a collector watches: a history of revisions and the collection they make. */
module Server {
  import opened Text
  import opened Events
  import opened Identity
  import opened Watch
  import opened Reducer

  /** A change of the watched collection. Other writes of the cluster change nothing in it
      but take a revision too. */
  datatype Change = Change(w: WatchType, namespace: string, name: string, uid: string, payload: string)

  /** `text` is the resource version a client sees for this revision. */
  datatype Revision = Revision(text: string, change: Option<Change>)

  type History = seq<Revision>

  function ItemOf(r: Revision): Item
    requires r.change.Some?
  {
    Item(r.change.value.namespace, r.change.value.name, r.change.value.uid, r.text, r.change.value.payload)
  }

  type ObjectId = (string, string)

  /** The server's name for an object: a namespaced request that names no namespace means its own. */
  function IdOf(t: Target, it: Item): ObjectId {
    (if it.namespace == "" then t.namespace else it.namespace, it.name)
  }

  type Collection = map<ObjectId, Item>

  function ApplyChange(t: Target, c: Collection, r: Revision): Collection {
    if r.change.None? then c
    else if r.change.value.w == Deleted then c - {IdOf(t, ItemOf(r))}
    else c[IdOf(t, ItemOf(r)) := ItemOf(r)]
  }

  function Coll(t: Target, h: History): Collection {
    if h == [] then map[] else ApplyChange(t, Coll(t, h[..|h| - 1]), h[|h| - 1])
  }

  /** The collection as revision `r` left it. */
  function CollAt(t: Target, h: History, r: nat): Collection
    requires r < |h|
  {
    Coll(t, h[..r + 1])
  }

  // ---------------------------------------------------------------- what the server promises

  predicate GoodItem(t: Target, it: Item) {
    && it.payload != ""
    && Lacks(t.streamId, NUL) && Lacks(IdOf(t, it).0, NUL) && Lacks(it.name, NUL)
    && Lacks(it.uid, NUL) && Lacks(it.resourceVersion, NUL)
    && Lacks(IdOf(t, it).0, '/') && Lacks(it.name, '/')
  }

  predicate GoodRevision(t: Target, r: Revision) {
    && r.text != ""
    && (r.change.Some? ==> GoodItem(t, ItemOf(r)) && r.change.value.w in {Added, Modified, Deleted})
  }

  predicate InOrder(h: History, i: nat, j: nat)
    requires i < |h| && j < |h|
  {
    h[i].text != h[j].text && !ResourceVersionBefore(h[j].text, h[i].text)
  }

  /** Resource versions are distinct, and where they compare as integers they compare in
      the order of the revisions. */
  ghost predicate GoodHistory(t: Target, h: History) {
    && (forall i :: 0 <= i < |h| ==> GoodRevision(t, h[i]))
    && (forall i, j :: 0 <= i < j < |h| ==> InOrder(h, i, j))
  }

  /** No change of the collection lies in (after, upto]. */
  ghost predicate Quiet(h: History, after: int, upto: int) {
    forall e :: 0 <= e < |h| && after < e <= upto ==> h[e].change.None?
  }

  lemma {:induction false} QuietKeepsCollection(t: Target, h: History, a: nat, b: nat)
    requires a <= b < |h| && Quiet(h, a, b)
    ensures CollAt(t, h, a) == CollAt(t, h, b)
    decreases b
  {
    if a < b {
      QuietKeepsCollection(t, h, a, b - 1);
      assert h[..b + 1][..b] == h[..b];
    }
  }

  /** The next change after `a`, at `b`, makes the collection at `b`. */
  lemma NextChange(t: Target, h: History, a: nat, b: nat)
    requires a < b < |h| && Quiet(h, a, b - 1)
    ensures CollAt(t, h, b) == ApplyChange(t, CollAt(t, h, a), h[b])
  {
    QuietKeepsCollection(t, h, a, b - 1);
    assert h[..b + 1][..b] == h[..b];
  }

  lemma HistoryGrows(t: Target, h: History, r: Revision, a: nat)
    requires a < |h|
    ensures CollAt(t, h + [r], a) == CollAt(t, h, a)
  {
    assert (h + [r])[..a + 1] == h[..a + 1];
  }

  // ---------------------------------------------------------------- a list reply

  function ItemsMap(t: Target, items: seq<Item>): Collection {
    if items == [] then map[]
    else ItemsMap(t, items[..|items| - 1])[IdOf(t, items[|items| - 1]) := items[|items| - 1]]
  }

  /** `items` lists collection `c`, each object once, in any order. */
  ghost predicate Lists(t: Target, items: seq<Item>, c: Collection) {
    && ItemsMap(t, items) == c
    && forall i, j :: 0 <= i < j < |items| ==> IdOf(t, items[i]) != IdOf(t, items[j])
  }

  lemma {:induction false} CollItemsGood(t: Target, h: History)
    requires forall i :: 0 <= i < |h| ==> GoodRevision(t, h[i])
    ensures forall id :: id in Coll(t, h) ==> GoodItem(t, Coll(t, h)[id]) && IdOf(t, Coll(t, h)[id]) == id
  {
    if h != [] { CollItemsGood(t, h[..|h| - 1]); }
  }

  lemma {:induction false} ListedItems(t: Target, items: seq<Item>)
    requires forall i, j :: 0 <= i < j < |items| ==> IdOf(t, items[i]) != IdOf(t, items[j])
    ensures forall i :: 0 <= i < |items| ==> IdOf(t, items[i]) in ItemsMap(t, items)
    ensures forall i :: 0 <= i < |items| ==> ItemsMap(t, items)[IdOf(t, items[i])] == items[i]
  {
    if items != [] {
      var init := items[..|items| - 1];
      ListedItems(t, init);
      forall i | 0 <= i < |items|
        ensures IdOf(t, items[i]) in ItemsMap(t, items) && ItemsMap(t, items)[IdOf(t, items[i])] == items[i]
      {
        if i < |init| { assert init[i] == items[i]; }
      }
    }
  }

  // ---------------------------------------------------------------- reduced state against a collection

  function KeyOfId(id: ObjectId): string { ObjectKeyOf(id.0, id.1) }

  predicate SlashFreeId(id: ObjectId) { Lacks(id.0, '/') && Lacks(id.1, '/') }

  predicate Shows(t: Target, st: ObjectState, id: ObjectId, it: Item) {
    && st.clusterId == t.clusterId && st.streamId == t.streamId && st.kind == t.kind
    && st.namespace == id.0 && st.name == id.1 && st.payload == it.payload
  }

  /** The reduced states are exactly the objects of the collection. */
  ghost predicate Agrees(t: Target, states: map<string, ObjectState>, c: Collection) {
    && (forall id :: id in c ==> SlashFreeId(id) && KeyOfId(id) in states && Shows(t, states[KeyOfId(id)], id, c[id]))
    && (forall k :: k in states ==> exists id :: id in c && KeyOfId(id) == k)
  }

  lemma KeyOfIdIsInjective(a: ObjectId, b: ObjectId)
    requires SlashFreeId(a) && SlashFreeId(b) && KeyOfId(a) == KeyOfId(b)
    ensures a == b
  {
    ObjectKeyIsInjective(ResourceRef("", "", "", a.0, a.1, "", ""), ResourceRef("", "", "", b.0, b.1, "", ""));
  }

  lemma KeysDiffer(c: Collection, id: ObjectId)
    requires SlashFreeId(id) && forall x :: x in c ==> SlashFreeId(x)
    ensures forall x :: x in c && x != id ==> KeyOfId(x) != KeyOfId(id)
  {
    forall x | x in c && KeyOfId(x) == KeyOfId(id) ensures x == id { KeyOfIdIsInjective(x, id); }
  }

  lemma AgreesPut(t: Target, states: map<string, ObjectState>, c: Collection, id: ObjectId, st: ObjectState, it: Item)
    requires Agrees(t, states, c) && SlashFreeId(id) && Shows(t, st, id, it)
    ensures Agrees(t, states[KeyOfId(id) := st], c[id := it])
  {
    KeysDiffer(c, id);
    var s', c' := states[KeyOfId(id) := st], c[id := it];
    forall k | k in s' ensures exists x :: x in c' && KeyOfId(x) == k {
      if k == KeyOfId(id) {
        assert id in c';
      } else {
        var x :| x in c && KeyOfId(x) == k;
        assert x in c';
      }
    }
  }

  lemma AgreesRemove(t: Target, states: map<string, ObjectState>, c: Collection, id: ObjectId)
    requires Agrees(t, states, c) && SlashFreeId(id)
    ensures Agrees(t, states - {KeyOfId(id)}, c - {id})
  {
    KeysDiffer(c, id);
    var s', c' := states - {KeyOfId(id)}, c - {id};
    forall k | k in s' ensures exists x :: x in c' && KeyOfId(x) == k {
      var x :| x in c && KeyOfId(x) == k;
      assert x in c';
    }
  }
}
