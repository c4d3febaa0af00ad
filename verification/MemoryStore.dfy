/** The in-memory journal store (internal/storage/memory.go). */
module MemoryStore {
  import opened Text
  import opened Seqs
  import opened Keys
  import opened Events
  import opened Journal

  // ---------------------------------------------------------------- the maps, as functions of the log

  function RecordsOf(log: seq<Record>): map<string, seq<Record>> {
    if log == [] then map[]
    else
      var m, r := RecordsOf(log[..|log| - 1]), log[|log| - 1];
      m[r.streamId := (if r.streamId in m then m[r.streamId] else []) + [r]]
  }

  function StreamsOf(log: seq<Record>): map<string, StreamMeta> {
    if log == [] then map[]
    else
      NextStreams(StreamsOf(log[..|log| - 1]), log[|log| - 1])
  }

  function NextStreams(m: map<string, StreamMeta>, r: Record): map<string, StreamMeta> {
    if r.streamId == "" then m
    else m[r.streamId := MetaStep(if r.streamId in m then Some(m[r.streamId]) else None, r)]
  }

  function IndexOf(log: seq<Record>): map<string, int> {
    if log == [] then map[]
    else
      var m, r := IndexOf(log[..|log| - 1]), log[|log| - 1];
      if r.eventId == "" then m else m[KeyOf(r) := r.ingestSeq]
  }

  /** The three maps after one more record. */
  lemma MapsStep(log: seq<Record>, r: Record)
    ensures RecordsOf(log + [r]) ==
            RecordsOf(log)[r.streamId :=
              (if r.streamId in RecordsOf(log) then RecordsOf(log)[r.streamId] else []) + [r]]
    ensures StreamsOf(log + [r]) == NextStreams(StreamsOf(log), r)
    ensures IndexOf(log + [r]) == if r.eventId == "" then IndexOf(log) else IndexOf(log)[KeyOf(r) := r.ingestSeq]
  {
    var log' := log + [r];
    assert log'[..|log'| - 1] == log && log'[|log'| - 1] == r;
  }

  /** The per-stream lists hold exactly each stream's records, in ingest order. */
  lemma {:induction false} RecordsMeaning(log: seq<Record>, s: string)
    ensures s in RecordsOf(log) <==> ForStream(log, s) != []
    ensures s in RecordsOf(log) ==> RecordsOf(log)[s] == ForStream(log, s)
  {
    if log != [] { RecordsMeaning(log[..|log| - 1], s); }
  }

  /** A stream's health row is the fold of its own records: other streams change nothing. */
  lemma {:induction false} StreamsMeaning(log: seq<Record>, s: string)
    requires s != ""
    ensures (if s in StreamsOf(log) then Some(StreamsOf(log)[s]) else None) == MetaOf(ForStream(log, s))
  {
    if log != [] {
      var init, r := log[..|log| - 1], log[|log| - 1];
      StreamsMeaning(init, s);
      if r.streamId == s {
        var rest := ForStream(init, s);
        assert (rest + [r])[..|rest|] == rest;
      }
    }
  }

  /** The index holds exactly the stored non-empty event IDs, each with its record's number. */
  lemma {:induction false} IndexMeaning(log: seq<Record>, key: string)
    ensures key in IndexOf(log) <==> HasKey(log, key)
    ensures key in IndexOf(log) ==>
              exists i :: 0 <= i < |log| && Indexed(log[i], key) && IndexOf(log)[key] == log[i].ingestSeq
  {
    if log != [] {
      var init, n := log[..|log| - 1], |log| - 1;
      IndexMeaning(init, key);
      if key in IndexOf(init) && !Indexed(log[n], key) {
        var i :| 0 <= i < |init| && Indexed(init[i], key) && IndexOf(init)[key] == init[i].ingestSeq;
        assert Indexed(log[i], key);
      }
      if HasKey(log, key) && !Indexed(log[n], key) {
        var i :| 0 <= i < |log| && Indexed(log[i], key);
        assert Indexed(init[i], key);
      }
      assert Indexed(log[n], key) ==> HasKey(log, key);
    }
  }

  /** Every row stands under its own stream ID. */
  lemma {:induction false} RowsAreNamed(log: seq<Record>, s: string)
    requires s in StreamsOf(log)
    ensures s != "" && StreamsOf(log)[s].streamId == s
  {
    var init, r := log[..|log| - 1], log[|log| - 1];
    if s in StreamsOf(init) { RowsAreNamed(init, s); }
  }

  predicate ByStreamId(a: StreamMeta, b: StreamMeta) { AtMost(a.streamId, b.streamId) }

  /** The rows of all streams, each once, by stream ID. */
  ghost predicate RowsOf(rows: seq<StreamMeta>, log: seq<Record>) {
    && (forall m :: m in rows <==> exists s :: s in StreamsOf(log) && m == StreamsOf(log)[s])
    && Distinct(rows) && Sorted(rows, ByStreamId)
  }

  // ---------------------------------------------------------------- queries, as functions of the log

  datatype EventFilter = EventFilter(
    clusterId: string, streamId: string, namespace: string, name: string, kind: string,
    rtype: Option<RecordType>, since: Time, until: Time, sinceSeq: int, limit: int, offset: int)

  predicate Matches(r: Record, f: EventFilter) {
    && (f.clusterId != "" ==> r.clusterId == f.clusterId)
    && (f.streamId != "" ==> r.streamId == f.streamId)
    && (f.rtype.Some? ==> r.rtype == f.rtype.value)
    && (f.namespace != "" ==> r.resource.namespace == f.namespace)
    && (f.name != "" ==> r.resource.name == f.name)
    && (f.kind != "" ==> r.resource.kind == f.kind)
    && (f.since != ZERO_TIME ==> r.observedAt >= f.since)
    && (f.until != ZERO_TIME ==> r.observedAt <= f.until)
  }

  predicate Selected(r: Record, f: EventFilter) {
    Matches(r, f) && (f.sinceSeq > 0 ==> r.ingestSeq > f.sinceSeq)
  }

  /** One page of a result: some records skipped, then at most `limit`, if that is positive. */
  function Slice<T>(all: seq<T>, offset: int, limit: int): seq<T> {
    var from := if offset <= 0 then all else if offset >= |all| then [] else all[offset..];
    if 0 < limit < |from| then from[..limit] else from
  }

  /** What a query for events returns: the selected records in ingest order, cut to the page. */
  function EventsOf(log: seq<Record>, f: EventFilter): seq<Record> {
    Slice(Filter(log, r => Selected(r, f)), f.offset, f.limit)
  }

  datatype ObjectRef = ObjectRef(clusterId: string, streamId: string, namespace: string, name: string)

  predicate OfObject(r: Record, ref: ObjectRef) {
    && r.rtype == Event && r.clusterId == ref.clusterId && r.streamId == ref.streamId
    && r.resource.namespace == ref.namespace && r.resource.name == ref.name
  }

  function OnObject(ref: ObjectRef): Record -> bool { r => OfObject(r, ref) }

  function HistoryOf(log: seq<Record>, ref: ObjectRef): seq<Record> {
    Filter(log, OnObject(ref))
  }

  /** The last of `recs` observed by `ts`, unless a deletion came after it. */
  function LastState(recs: seq<Record>, ts: Time): Option<Record> {
    if recs == [] then None
    else
      var r := recs[|recs| - 1];
      if r.observedAt > ts then LastState(recs[..|recs| - 1], ts)
      else if r.watchType == Deleted then None
      else Some(r)
  }

  /** A stream's records observed by `until`; the zero time cuts nothing. */
  function Cut(recs: seq<Record>, until: Time): seq<Record> {
    if recs == [] then []
    else
      var r := recs[|recs| - 1];
      Cut(recs[..|recs| - 1], until) + if until == ZERO_TIME || r.observedAt <= until then [r] else []
  }

  lemma {:induction false} FilterInOrder(log: seq<Record>, p: Record -> bool)
    requires Increasing(log)
    ensures Increasing(Filter(log, p))
    ensures forall r :: r in Filter(log, p) ==> r in log
  {
    if log != [] {
      var init := log[..|log| - 1];
      FilterInOrder(init, p);
      assert log == init + [log[|log| - 1]];
      var f := Filter(init, p);
      forall i | 0 <= i < |f| ensures f[i].ingestSeq < log[|log| - 1].ingestSeq { assert f[i] in init; }
    }
  }

  lemma InInit(a: seq<Record>, r: Record)
    requires Increasing(a) && a != []
    ensures r in a[..|a| - 1] <==> r in a && r != a[|a| - 1]
  {
    assert a == a[..|a| - 1] + [a[|a| - 1]];
    assert forall i :: 0 <= i < |a| - 1 ==> a[i].ingestSeq < a[|a| - 1].ingestSeq;
  }

  ghost predicate SameRecords(a: seq<Record>, b: seq<Record>) { forall r :: r in a <==> r in b }

  lemma PeelInOrder(a: seq<Record>, b: seq<Record>) returns (a': seq<Record>, b': seq<Record>, x: Record)
    requires Increasing(a) && Increasing(b) && SameRecords(a, b) && a != []
    ensures a == a' + [x] && b == b' + [x]
    ensures Increasing(a') && Increasing(b') && SameRecords(a', b')
  {
    assert a[|a| - 1] in b;
    assert b[|b| - 1] in a;
    a', b', x := a[..|a| - 1], b[..|b| - 1], a[|a| - 1];
    forall r ensures r in a' <==> r in b' {
      InInit(a, r);
      InInit(b, r);
    }
  }

  /** Records in ingest order are determined by which they are. */
  lemma {:induction false} SameInOrder(a: seq<Record>, b: seq<Record>)
    requires Increasing(a) && Increasing(b) && SameRecords(a, b)
    ensures a == b
    decreases |a|
  {
    assert b != [] ==> b[0] in a;
    if a != [] {
      var a', b', x := PeelInOrder(a, b);
      SameInOrder(a', b');
    }
  }

  /** Sorting distinct records of a log by number puts them in ingest order. */
  lemma {:induction false} SortedByNumber(log: seq<Record>, found: seq<Record>)
    requires Numbered(log) && Distinct(found)
    requires forall r :: r in found ==> r in log
    ensures Increasing(SortBy(found, ByNumber))
    ensures forall r :: r in SortBy(found, ByNumber) <==> r in found
  {
    var out := SortBy(found, ByNumber);
    SortMultiset(found, ByNumber);
    DistinctPermutation(found, out);
    SortSorted(found, ByNumber);
    forall r ensures r in out <==> r in found { SortMembers(found, ByNumber, r); }
    forall i, j | 0 <= i < j < |out| ensures out[i].ingestSeq < out[j].ingestSeq {
      assert ByNumber(out[i], out[j]);
      DistinctNumbers(log, out[i], out[j]);
    }
  }

  lemma DistinctNumbers(log: seq<Record>, a: Record, b: Record)
    requires Numbered(log) && a in log && b in log && a != b
    ensures a.ingestSeq != b.ingestSeq
  {
  }

  predicate ByNumber(a: Record, b: Record) { a.ingestSeq <= b.ingestSeq }

  /** What ties the store's fields to the records accepted so far. */
  ghost predicate Consistent(log: seq<Record>, counter: int, records: map<string, seq<Record>>,
                             streams: map<string, StreamMeta>, seqByKey: map<string, int>)
  {
    && counter == |log|
    && Numbered(log) && KeysUnique(log) && Stamped(log)
    && records == RecordsOf(log) && streams == StreamsOf(log) && seqByKey == IndexOf(log)
  }

  lemma ConsistentStep(log: seq<Record>, counter: int, records: map<string, seq<Record>>,
                       streams: map<string, StreamMeta>, seqByKey: map<string, int>, rec: Record, now: Time)
    requires Consistent(log, counter, records, streams, seqByKey)
    requires !IsDuplicate(log, rec) && now != ZERO_TIME
    ensures var r := Stamp(rec, now).(ingestSeq := counter + 1);
            && Append(log, rec, now) == log + [r]
            && Consistent(log + [r], counter + 1,
                          records[r.streamId := (if r.streamId in records then records[r.streamId] else []) + [r]],
                          NextStreams(streams, r),
                          if r.eventId == "" then seqByKey else seqByKey[KeyOf(r) := r.ingestSeq])
  {
    AppendKeepsLog(log, rec, now);
    MapsStep(log, Stamp(rec, now).(ingestSeq := counter + 1));
  }

  lemma {:induction false} IndexAnswers(log: seq<Record>, rec: Record)
    requires Numbered(log) && rec.eventId != ""
    ensures KeyOf(rec) in IndexOf(log) <==> IsDuplicate(log, rec)
    ensures KeyOf(rec) in IndexOf(log) ==> Answers(log, rec, IndexOf(log)[KeyOf(rec)])
  {
    IndexMeaning(log, KeyOf(rec));
  }

  /** The number an append answers with is the number of the stored event. */
  ghost predicate Answers(log: seq<Record>, rec: Record, number: int) {
    1 <= number <= |log| && (rec.eventId != "" ==> Indexed(log[number - 1], KeyOf(rec)))
  }

  /** The numbers answer the first deliveries. */
  ghost predicate AllAnswer(log: seq<Record>, ds: seq<Delivery>, numbers: seq<int>) {
    |numbers| <= |ds| && forall k :: 0 <= k < |numbers| ==> Answers(log, ds[k].rec, numbers[k])
  }

  lemma OneMoreAnswer(before: seq<Record>, log: seq<Record>, ds: seq<Delivery>, numbers: seq<int>, number: int)
    requires before <= log && AllAnswer(before, ds, numbers)
    requires |numbers| < |ds| && Answers(log, ds[|numbers|].rec, number)
    ensures AllAnswer(log, ds, numbers + [number])
  {
    forall k | 0 <= k < |numbers| ensures Answers(log, ds[k].rec, numbers[k]) {
      AnswerStands(before, ds[k].rec, numbers[k], log);
    }
  }

  lemma NewAnswers(log: seq<Record>, rec: Record, now: Time)
    ensures Answers(log + [Stamp(rec, now).(ingestSeq := |log| + 1)], rec, |log| + 1)
  {
    assert rec.eventId != "" ==> Indexed(Stamp(rec, now).(ingestSeq := |log| + 1), KeyOf(rec));
  }

  lemma AnswerStands(log: seq<Record>, rec: Record, number: int, log': seq<Record>)
    requires log <= log' && Answers(log, rec, number)
    ensures Answers(log', rec, number)
  {
  }

  // ---------------------------------------------------------------- the store

  class Store {
    var records: map<string, seq<Record>>   // stream ID -> records in ingest order
    var counter: int
    var streams: map<string, StreamMeta>
    var seqByKey: map<string, int>          // stream ID, NUL, event ID -> ingest number
    ghost var log: seq<Record>              // every stored record, in ingest order

    ghost predicate Valid()
      reads this
    {
      Consistent(log, counter, records, streams, seqByKey)
    }

    constructor ()
      ensures Valid() && log == []
    {
      records, counter, streams, seqByKey := map[], 0, map[], map[];
      log := [];
    }

    method AppendLocked(rec: Record, now: Time) returns (number: int)
      requires Valid() && now != ZERO_TIME
      modifies this
      ensures Valid() && log == Journal.Append(old(log), rec, now)
      ensures Answers(log, rec, number)
    {
      if rec.eventId != "" {
        IndexAnswers(log, rec);
        if KeyOf(rec) in seqByKey {
          number := seqByKey[KeyOf(rec)];
          return;
        }
      }
      number := StoreNew(rec, now);
    }

    /** The part of `appendLocked` after the duplicate check. */
    method StoreNew(rec: Record, now: Time) returns (number: int)
      requires Valid() && now != ZERO_TIME && !IsDuplicate(log, rec)
      modifies this
      ensures Valid() && log == Journal.Append(old(log), rec, now)
      ensures Answers(log, rec, number)
    {
      ConsistentStep(log, counter, records, streams, seqByKey, rec, now);
      NewAnswers(log, rec, now);
      counter := counter + 1;
      var r := Stamp(rec, now).(ingestSeq := counter);
      log := log + [r];
      records := records[r.streamId := (if r.streamId in records then records[r.streamId] else []) + [r]];
      if rec.eventId != "" {
        seqByKey := seqByKey[KeyOf(r) := counter];
      }
      if rec.streamId != "" {
        UpdateMeta(r);
      }
      number := counter;
    }

    method UpdateMeta(rec: Record)
      requires rec.streamId != ""
      modifies this`streams
      ensures streams == NextStreams(old(streams), rec)
    {
      var meta := if rec.streamId in streams then streams[rec.streamId]
                  else StreamMeta(rec.streamId, rec.clusterId, false, ZERO_TIME, ZERO_TIME, "", 0, false, false);
      if meta.firstObservedAt == ZERO_TIME {
        meta := meta.(firstObservedAt := rec.observedAt);
      }
      if rec.observedAt > meta.lastObservedAt {
        meta := meta.(lastObservedAt := rec.observedAt);
      }
      assert meta == Observe(if rec.streamId in streams then Some(streams[rec.streamId]) else None, rec);
      ghost var observed := meta;
      match rec.rtype {
        case Gap =>
          meta := meta.(gapCount := meta.gapCount + 1, hasGaps := true, degraded := true);
        case Baseline =>
          meta := meta.(available := true, degraded := false);
          if rec.resource.resourceVersion != "" {
            meta := meta.(lastResourceVersion := rec.resource.resourceVersion);
          }
        case CoverageChange =>
          if rec.coverage.Some? {
            meta := meta.(available := rec.coverage.value);
            if meta.available { meta := meta.(degraded := false); } else { meta := meta.(degraded := true); }
          }
        case Checkpoint =>
          if rec.checkpoint.Some? { meta := meta.(lastResourceVersion := rec.checkpoint.value); }
        case Event =>
          if rec.resource.resourceVersion != "" {
            meta := meta.(lastResourceVersion := rec.resource.resourceVersion);
          }
        case _ =>
      }
      assert meta == Classify(observed, rec);
      streams := streams[rec.streamId := meta];
    }

    method Appends(ds: seq<Delivery>) returns (numbers: seq<int>)
      requires Valid()
      requires forall i :: 0 <= i < |ds| ==> ds[i].now != ZERO_TIME
      modifies this
      ensures Valid() && log == Play(old(log), ds)
      ensures |numbers| == |ds|
      ensures forall i :: 0 <= i < |ds| ==> Answers(log, ds[i].rec, numbers[i])
    {
      numbers := [];
      for i := 0 to |ds|
        invariant Valid() && log == Play(old(log), ds[..i])
        invariant |numbers| == i && AllAnswer(log, ds, numbers)
      {
        ghost var before := log;
        assert ds[..i + 1][..i] == ds[..i];
        var s := AppendLocked(ds[i].rec, ds[i].now);
        OneMoreAnswer(before, log, ds, numbers, s);
        numbers := numbers + [s];
      }
      assert ds[..|ds|] == ds;
    }

    method Append(rec: Record, now: Time) returns (number: int)
      requires Valid() && now != ZERO_TIME
      modifies this
      ensures Valid() && log == Journal.Append(old(log), rec, now)
      ensures Answers(log, rec, number)
    {
      number := AppendLocked(rec, now);
    }

    method GetMeta(streamId: string) returns (m: Option<StreamMeta>)
      requires Valid()
      ensures streamId != "" ==> m == MetaOf(ForStream(log, streamId))
    {
      if streamId != "" { StreamsMeaning(log, streamId); }
      if streamId in streams { m := Some(streams[streamId]); } else { m := None; }
    }

    /** The rows in the order the map yields them, sorted. */
    method Streams() returns (out: seq<StreamMeta>)
      requires Valid()
      ensures RowsOf(out, log)
    {
      var keys := streams.Keys;
      var rows: seq<StreamMeta> := [];
      while keys != {}
        invariant keys <= streams.Keys
        invariant forall m :: m in rows <==> exists s :: s in streams.Keys - keys && m == streams[s]
        invariant Distinct(rows)
        decreases keys
      {
        var k :| k in keys;
        RowsAreNamed(log, k);
        forall m | m in rows ensures m != streams[k] {
          var s :| s in streams.Keys - keys && m == streams[s];
          RowsAreNamed(log, s);
        }
        DistinctSnoc(rows, streams[k]);
        rows := rows + [streams[k]];
        keys := keys - {k};
      }
      out := SortBy(rows, ByStreamId);
      AtMostIsTotalOrder();
      SortSorted(rows, ByStreamId);
      SortMultiset(rows, ByStreamId);
      DistinctPermutation(rows, out);
      forall m ensures m in out <==> m in rows { SortMembers(rows, ByStreamId, m); }
    }

    /** Walks every stream's list in no particular order, then sorts by number. */
    method Gather(p: Record -> bool) returns (out: seq<Record>)
      requires Valid()
      ensures out == Filter(log, p)
    {
      var keys := records.Keys;
      var found: seq<Record> := [];
      while keys != {}
        invariant keys <= records.Keys
        invariant forall r :: r in found <==> r in log && p(r) && r.streamId in records.Keys - keys
        invariant Distinct(found)
        decreases keys
      {
        var k :| k in keys;
        var more := GatherFrom(k, p);
        ghost var had := found;
        forall r | r in more ensures r in log && r !in found { ForStreamMembers(log, k, r); }
        assert Distinct(found + more);
        found := found + more;
        keys := keys - {k};
        forall r ensures r in found <==> r in log && p(r) && r.streamId in records.Keys - keys {
          assert r in found <==> r in had || r in more;
          ForStreamMembers(log, k, r);
        }
      }
      SortedByNumber(log, found);
      out := SortBy(found, ByNumber);
      FilterInOrder(log, p);
      forall r ensures r in out <==> r in Filter(log, p) {
        FilterMembers(log, p, r);
        RecordsMeaning(log, r.streamId);
        ForStreamMembers(log, r.streamId, r);
      }
      SameInOrder(out, Filter(log, p));
    }

    method GatherFrom(k: string, p: Record -> bool) returns (out: seq<Record>)
      requires Valid() && k in records
      ensures forall r :: r in out <==> r in ForStream(log, k) && p(r)
      ensures Distinct(out)
    {
      RecordsMeaning(log, k);
      ForStreamInOrder(log, k);
      var rs := records[k];
      out := [];
      for i := 0 to |rs|
        invariant out == Filter(rs[..i], p)
      {
        assert rs[..i + 1][..i] == rs[..i];
        if p(rs[i]) { out := out + [rs[i]]; }
      }
      assert rs[..|rs|] == rs;
      FilterInOrder(rs, p);
      forall r ensures r in out <==> r in rs && p(r) { FilterMembers(rs, p, r); }
    }

    method Events(f: EventFilter) returns (out: seq<Record>)
      requires Valid()
      ensures out == EventsOf(log, f)
    {
      out := Gather(r => Selected(r, f));
      if f.offset > 0 {
        if f.offset >= |out| { return []; }
        out := out[f.offset..];
      }
      if f.limit > 0 && |out| > f.limit {
        out := out[..f.limit];
      }
    }

    method ObjectHistory(ref: ObjectRef) returns (out: seq<Record>)
      requires Valid()
      ensures out == HistoryOf(log, ref)
    {
      out := Gather(OnObject(ref));
    }

    method ObjectAt(ref: ObjectRef, ts: Time) returns (last: Option<Record>)
      requires Valid()
      ensures last == LastState(HistoryOf(log, ref), ts)
    {
      var recs := ObjectHistory(ref);
      last := None;
      for i := 0 to |recs|
        invariant last == LastState(recs[..i], ts)
      {
        assert recs[..i + 1][..i] == recs[..i];
        if recs[i].observedAt > ts { continue; }
        if recs[i].watchType == Deleted {
          last := None;
          continue;
        }
        last := Some(recs[i]);
      }
      assert recs[..|recs|] == recs;
    }

    method StreamEvents(streamId: string, until: Time) returns (out: seq<Record>)
      requires Valid()
      ensures out == Cut(ForStream(log, streamId), until)
    {
      RecordsMeaning(log, streamId);
      var rs := if streamId in records then records[streamId] else [];
      out := [];
      for i := 0 to |rs|
        invariant out == Cut(rs[..i], until)
      {
        assert rs[..i + 1][..i] == rs[..i];
        if until == ZERO_TIME || rs[i].observedAt <= until {
          out := out + [rs[i]];
        }
      }
      assert rs[..|rs|] == rs;
    }
  }
}
