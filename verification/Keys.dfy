/** Sets of strings as sorted lists: Go's idiom of collecting map keys and sorting them. The loop
    that sorts them, the list it leaves, and that the list holds each key exactly once. */
module Keys {
  import opened Text
  import opened Seqs

  lemma AtMostIsTotalOrder()
    ensures TotalOrder(AtMost)
  {
    forall x, y ensures AtMost(x, y) || AtMost(y, x) { BeforeIsTotal(x, y); }
    forall x, y, z | AtMost(x, y) && AtMost(y, z) ensures AtMost(x, z) {
      if Before(x, y) && Before(y, z) { BeforeIsTransitive(x, y, z); }
    }
  }

  lemma AtMostHasNoTies(s: multiset<string>)
    ensures NoTies(s, AtMost)
  {
    forall x, y | x in s && y in s && AtMost(x, y) && AtMost(y, x) ensures x == y {
      if Before(x, y) { BeforeIsAsymmetric(x, y); }
    }
  }

  /** The members of `s` in byte order. */
  ghost function SortedKeys(s: set<string>): seq<string> {
    if s == {} then [] else var k :| k in s; Insert(k, SortedKeys(s - {k}), AtMost)
  }

  lemma {:induction false} SortedKeysMembers(s: set<string>)
    ensures multiset(SortedKeys(s)) == multiset(s)
    ensures Sorted(SortedKeys(s), AtMost)
  {
    AtMostIsTotalOrder();
    if s != {} {
      var k :| k in s && SortedKeys(s) == Insert(k, SortedKeys(s - {k}), AtMost);
      var q := SortedKeys(s - {k});
      SortedKeysMembers(s - {k});
      InsertMultiset(k, q, AtMost);
      InsertSorted(k, q, AtMost);
      assert multiset(s) == multiset(s - {k}) + multiset{k};
    }
  }

  lemma OnceIsDistinct<T>(q: seq<T>)
    requires forall k :: multiset(q)[k] <= 1
    ensures Distinct(q)
  {
    forall i, j | 0 <= i < j < |q| ensures q[i] != q[j] {
      var k := q[j];
      assert multiset(q)[k] <= 1;
      assert q == q[..j] + [k] + q[j + 1..];
      assert k !in multiset(q[..j]);
      assert q[..j][i] == q[i];
    }
  }

  /** Each key once, and only the keys. */
  lemma {:induction false} SortedKeysListSet(s: set<string>)
    ensures Distinct(SortedKeys(s))
    ensures forall k :: k in SortedKeys(s) <==> k in s
  {
    var q := SortedKeys(s);
    SortedKeysMembers(s);
    OnceIsDistinct(q);
    forall k ensures k in q <==> k in s {
      assert k in q <==> k in multiset(q);
    }
  }

  /** Collecting the keys of a map and sorting them. */
  method SortKeys(s: set<string>) returns (q: seq<string>)
    ensures q == SortedKeys(s)
  {
    var keys: seq<string> := [];
    var left := s;
    while left != {}
      invariant left <= s && multiset(keys) == multiset(s - left)
      decreases left
    {
      var k :| k in left;
      keys := keys + [k];
      left := left - {k};
      assert s - left == (s - (left + {k})) + {k};
    }
    assert s - left == s;
    q := SortBy(keys, AtMost);
    SortMultiset(keys, AtMost);
    AtMostIsTotalOrder();
    SortSorted(keys, AtMost);
    SortedKeysMembers(s);
    AtMostHasNoTies(multiset(q));
    SortedIsUnique(q, SortedKeys(s), AtMost);
  }
}
