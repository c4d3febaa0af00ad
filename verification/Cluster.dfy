/** Reconstructing a whole cluster (internal/materialize/materialize.go). */
module Cluster {
  import opened Text
  import opened Seqs
  import opened Events
  import opened Journal
  import opened MemoryStore
  import opened Reducer

  /** The reduction of a stream's records observed up to `at`. */
  function ReductionAt(log: seq<Record>, s: string, at: Time): Reduction {
    Reduce(s, MemoryStore.Cut(ForStream(log, s), at))
  }

  predicate InStateOrder(a: ObjectState, b: ObjectState) {
    if a.streamId != b.streamId then Before(a.streamId, b.streamId)
    else if a.namespace != b.namespace then Before(a.namespace, b.namespace)
    else AtMost(a.name, b.name)
  }

  lemma StateOrderIsTotal()
    ensures TotalOrder(InStateOrder)
  {
    forall a, b ensures InStateOrder(a, b) || InStateOrder(b, a) {
      BeforeIsTotal(a.streamId, b.streamId);
      BeforeIsTotal(a.namespace, b.namespace);
      BeforeIsTotal(a.name, b.name);
    }
    forall a, b, c | InStateOrder(a, b) && InStateOrder(b, c) ensures InStateOrder(a, c) {
      StateOrderIsTransitive(a, b, c);
    }
  }

  lemma StateOrderIsTransitive(a: ObjectState, b: ObjectState, c: ObjectState)
    requires InStateOrder(a, b) && InStateOrder(b, c)
    ensures InStateOrder(a, c)
  {
    if a.streamId != b.streamId || b.streamId != c.streamId {
      ThroughMiddle(a.streamId, b.streamId, c.streamId);
    } else if a.namespace != b.namespace || b.namespace != c.namespace {
      ThroughMiddle(a.namespace, b.namespace, c.namespace);
    } else if a.name != b.name && b.name != c.name {
      BeforeIsTransitive(a.name, b.name, c.name);
    }
  }

  lemma {:induction false} ThroughMiddle(a: string, b: string, c: string)
    requires a == b || Before(a, b)
    requires b == c || Before(b, c)
    requires a != b || b != c
    ensures Before(a, c) && a != c
  {
    if a != b && b != c { BeforeIsTransitive(a, b, c); }
    BeforeIsAsymmetric(a, c);
  }

  /** What one record does to the objects. */
  lemma StatesStep(red: Reduction, s: string, rec: Record)
    ensures var key := rec.resource.ObjectKey();
            ReduceStep(red, s, rec).states ==
              if rec.rtype == Baseline then map[]
              else if IsDelete(rec) then red.states - {key}
              else if IsUpsert(rec) then red.states[key := StateOf(s, rec)]
              else red.states
  {
  }

  /** Each object stands under its own namespace and name, and carries its stream. */
  lemma {:induction false} StatesAreNamed(s: string, recs: seq<Record>, key: string)
    requires key in Reduce(s, recs).states
    ensures var st := Reduce(s, recs).states[key]; st.streamId == s && ObjectKeyOf(st.namespace, st.name) == key
  {
    var init, rec := recs[..|recs| - 1], recs[|recs| - 1];
    StatesStep(Reduce(s, init), s, rec);
    if key in Reduce(s, init).states { StatesAreNamed(s, init, key); }
  }

  /** The objects in the order the map yields them, sorted. */
  method StatesOf(s: string, ghost recs: seq<Record>, states: map<string, ObjectState>) returns (objs: seq<ObjectState>)
    requires states == Reduce(s, recs).states
    ensures forall st :: st in objs <==> st in states.Values
    ensures Distinct(objs) && Sorted(objs, InStateOrder)
    ensures forall st :: st in objs ==> st.streamId == s
  {
    var keys := states.Keys;
    var found: seq<ObjectState> := [];
    while keys != {}
      invariant keys <= states.Keys
      invariant forall st :: st in found <==> exists k :: k in states.Keys - keys && st == states[k]
      invariant Distinct(found)
      decreases keys
    {
      var k :| k in keys;
      StatesAreNamed(s, recs, k);
      forall st | st in found ensures st != states[k] {
        var j :| j in states.Keys - keys && st == states[j];
        StatesAreNamed(s, recs, j);
      }
      DistinctSnoc(found, states[k]);
      found := found + [states[k]];
      keys := keys - {k};
    }
    objs := SortStates(found);
    forall st | st in objs ensures st.streamId == s {
      var k :| k in states && st == states[k];
      StatesAreNamed(s, recs, k);
    }
  }

  /** `sortObjects`. */
  method SortStates(found: seq<ObjectState>) returns (objs: seq<ObjectState>)
    ensures multiset(objs) == multiset(found) && Sorted(objs, InStateOrder)
    ensures forall st :: st in objs <==> st in found
    ensures Distinct(found) ==> Distinct(objs)
  {
    objs := SortBy(found, InStateOrder);
    StateOrderIsTotal();
    SortSorted(found, InStateOrder);
    SortMultiset(found, InStateOrder);
    forall st ensures st in objs <==> st in found { SortMembers(found, InStateOrder, st); }
    if Distinct(found) { DistinctPermutation(found, objs); }
  }

  datatype StreamState = StreamState(
    objects: seq<ObjectState>, hasGaps: bool, gapCount: nat, hasBaseline: bool, lastObservedAt: Time, lastRV: string)

  method StreamStateAt(store: Store, s: string, at: Time) returns (r: StreamState)
    requires store.Valid()
    ensures var red := ReductionAt(store.log, s, at);
            && (forall st :: st in r.objects <==> st in red.states.Values)
            && Distinct(r.objects) && Sorted(r.objects, InStateOrder)
            && (forall st :: st in r.objects ==> st.streamId == s)
            && r == StreamState(r.objects, red.hasGaps, red.gapCount, red.hasBaseline, red.lastObservedAt, red.lastRV)
  {
    var recs := store.StreamEvents(s, at);
    var red := ReduceLoop(s, recs);
    var objs := StatesOf(s, recs, red.states);
    r := StreamState(objs, red.hasGaps, red.gapCount, red.hasBaseline, red.lastObservedAt, red.lastRV);
  }

  /** The stream has a row, and the row names the cluster. */
  predicate Tracked(log: seq<Record>, s: string, clusterId: string) {
    s in StreamsOf(log) && StreamsOf(log)[s].clusterId == clusterId
  }

  /** No stream of the cluster lacks a baseline or has an open gap. */
  ghost predicate Complete(log: seq<Record>, clusterId: string, at: Time) {
    forall s :: Tracked(log, s, clusterId) ==> Reported(ReductionAt(log, s, at))
  }

  ghost predicate Present(log: seq<Record>, clusterId: string, at: Time, st: ObjectState) {
    Tracked(log, st.streamId, clusterId) && st in ReductionAt(log, st.streamId, at).states.Values
  }

  predicate IsRow(log: seq<Record>, m: StreamMeta) { m.streamId in StreamsOf(log) && StreamsOf(log)[m.streamId] == m }

  lemma {:induction false} RowsAreRows(log: seq<Record>, rows: seq<StreamMeta>)
    requires RowsOf(rows, log)
    ensures forall j :: 0 <= j < |rows| ==> IsRow(log, rows[j])
    ensures forall i, j :: 0 <= i < j < |rows| ==> rows[i].streamId != rows[j].streamId
    ensures forall s :: s in StreamsOf(log) ==> exists j :: 0 <= j < |rows| && rows[j].streamId == s
  {
    forall j | 0 <= j < |rows| ensures IsRow(log, rows[j]) {
      assert rows[j] in rows;
      var s :| s in StreamsOf(log) && rows[j] == StreamsOf(log)[s];
      RowsAreNamed(log, s);
    }
    forall i, j | 0 <= i < j < |rows| ensures rows[i].streamId != rows[j].streamId {
      assert IsRow(log, rows[i]) && IsRow(log, rows[j]) && rows[i] != rows[j];
    }
    forall s | s in StreamsOf(log) ensures exists j :: 0 <= j < |rows| && rows[j].streamId == s {
      assert StreamsOf(log)[s] in rows;
      var j :| 0 <= j < |rows| && rows[j] == StreamsOf(log)[s];
      RowsAreNamed(log, s);
    }
  }

  /** The first rows hold every stream met so far. */
  ghost predicate Met(rows: seq<StreamMeta>, i: nat, s: string) {
    exists j :: 0 <= j < i && j < |rows| && rows[j].streamId == s
  }

  /** What the first `i` rows give: whether their streams are covered, and their objects. */
  ghost predicate Gathered(log: seq<Record>, rows: seq<StreamMeta>, i: nat, clusterId: string, at: Time,
                           complete: bool, found: seq<ObjectState>)
  {
    && (complete <==> forall s :: Met(rows, i, s) && Tracked(log, s, clusterId) ==> Reported(ReductionAt(log, s, at)))
    && (forall st :: st in found <==> Met(rows, i, st.streamId) && Present(log, clusterId, at, st))
    && Distinct(found)
  }

  lemma MetNext(rows: seq<StreamMeta>, i: nat)
    requires i < |rows|
    ensures forall s :: Met(rows, i + 1, s) <==> Met(rows, i, s) || s == rows[i].streamId
  {
    forall s | Met(rows, i, s) || s == rows[i].streamId ensures Met(rows, i + 1, s) {
      if Met(rows, i, s) {
        var j :| 0 <= j < i && rows[j].streamId == s;
        assert rows[j].streamId == s;
      } else {
        assert rows[i].streamId == s;
      }
    }
  }

  lemma OtherCluster(log: seq<Record>, rows: seq<StreamMeta>, i: nat, clusterId: string, at: Time, complete: bool,
                     found: seq<ObjectState>)
    requires i < |rows| && IsRow(log, rows[i]) && rows[i].clusterId != clusterId
    requires Gathered(log, rows, i, clusterId, at, complete, found)
    ensures Gathered(log, rows, i + 1, clusterId, at, complete, found)
  {
    MetNext(rows, i);
  }

  lemma OneMoreStream(log: seq<Record>, rows: seq<StreamMeta>, i: nat, clusterId: string, at: Time, complete: bool,
                      found: seq<ObjectState>, objects: seq<ObjectState>)
    requires i < |rows| && IsRow(log, rows[i]) && rows[i].clusterId == clusterId && !Met(rows, i, rows[i].streamId)
    requires Gathered(log, rows, i, clusterId, at, complete, found)
    requires forall st :: st in objects <==> st in ReductionAt(log, rows[i].streamId, at).states.Values
    requires forall st :: st in objects ==> st.streamId == rows[i].streamId
    requires Distinct(objects)
    ensures Gathered(log, rows, i + 1, clusterId, at,
                     complete && Reported(ReductionAt(log, rows[i].streamId, at)), found + objects)
  {
    MetNext(rows, i);
    DistinctConcat(found, objects);
  }

  /** The objects of every stream of the cluster at `at`, each once, and whether all of it is
      covered. */
  method StateAt(store: Store, clusterId: string, at: Time) returns (all: seq<ObjectState>, complete: bool)
    requires store.Valid()
    ensures complete <==> Complete(store.log, clusterId, at)
    ensures forall st :: st in all <==> Present(store.log, clusterId, at, st)
    ensures Distinct(all) && Sorted(all, InStateOrder)
  {
    var rows := store.Streams();
    ghost var log := store.log;
    RowsAreRows(log, rows);
    var found: seq<ObjectState> := [];
    complete := true;
    for i := 0 to |rows|
      invariant Gathered(log, rows, i, clusterId, at, complete, found)
    {
      var s := rows[i].streamId;
      if rows[i].clusterId != clusterId {
        OtherCluster(log, rows, i, clusterId, at, complete, found);
        continue;
      }
      var r := StreamStateAt(store, s, at);
      OneMoreStream(log, rows, i, clusterId, at, complete, found, r.objects);
      if !r.hasBaseline || r.hasGaps { complete := false; }
      found := found + r.objects;
    }
    AllGathered(log, rows, clusterId, at, complete, found);
    all := SortStates(found);
  }

  lemma AllGathered(log: seq<Record>, rows: seq<StreamMeta>, clusterId: string, at: Time, complete: bool,
                    found: seq<ObjectState>)
    requires RowsOf(rows, log) && Gathered(log, rows, |rows|, clusterId, at, complete, found)
    ensures complete <==> Complete(log, clusterId, at)
    ensures forall st :: st in found <==> Present(log, clusterId, at, st)
  {
    RowsAreRows(log, rows);
    forall s | s in StreamsOf(log) ensures Met(rows, |rows|, s) { }
  }

  /** The order of objects: by stream, then namespace, then name. */
  lemma StateOrderMeaning(a: ObjectState, b: ObjectState)
    ensures InStateOrder(a, b) <==>
              || Before(a.streamId, b.streamId)
              || (a.streamId == b.streamId && Before(a.namespace, b.namespace))
              || (a.streamId == b.streamId && a.namespace == b.namespace && !Before(b.name, a.name))
  {
    BeforeIsTotal(a.name, b.name);
    BeforeIsStrict(a.streamId);
    BeforeIsStrict(a.namespace);
    BeforeIsStrict(a.name);
    if Before(a.name, b.name) { BeforeIsAsymmetric(a.name, b.name); }
  }
}
