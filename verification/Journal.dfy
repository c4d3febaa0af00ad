/** What a journal store keeps. */
module Journal {
  import opened Text
  import opened Events

  // A journal is a function of the records accepted so far. Both stores are proved against it: the
  // in-memory one in MemoryStore, the SQLite one in SqlRefines.

  /** The observable health of one stream (internal/storage/store.go). */
  datatype StreamMeta = StreamMeta(
    streamId: string, clusterId: string, available: bool,
    firstObservedAt: Time, lastObservedAt: Time, lastResourceVersion: string,
    gapCount: nat, hasGaps: bool, degraded: bool)

  // ---------------------------------------------------------------- appending

  function KeyOf(r: Record): string { r.streamId + [NUL] + r.eventId }

  predicate Indexed(r: Record, key: string) { r.eventId != "" && KeyOf(r) == key }

  predicate HasKey(log: seq<Record>, key: string) {
    exists i | 0 <= i < |log| :: Indexed(log[i], key)
  }

  predicate IsDuplicate(log: seq<Record>, rec: Record) {
    rec.eventId != "" && HasKey(log, KeyOf(rec))
  }

  function Stamp(rec: Record, now: Time): Record {
    if rec.observedAt == ZERO_TIME then rec.(observedAt := now) else rec
  }

  /** One append: a record whose key is known is not stored again. */
  function Append(log: seq<Record>, rec: Record, now: Time): seq<Record> {
    if IsDuplicate(log, rec) then log
    else log + [Stamp(rec, now).(ingestSeq := |log| + 1)]
  }

  /** A record handed to the store, with the clock reading of that moment. */
  datatype Delivery = Delivery(rec: Record, now: Time)

  function Play(log: seq<Record>, ds: seq<Delivery>): seq<Record> {
    if ds == [] then log
    else var last := ds[|ds| - 1]; Append(Play(log, ds[..|ds| - 1]), last.rec, last.now)
  }

  lemma {:induction false} PlayExtends(log: seq<Record>, ds: seq<Delivery>)
    ensures log <= Play(log, ds)
  {
    if ds != [] { PlayExtends(log, ds[..|ds| - 1]); }
  }

  // ---------------------------------------------------------------- what every log keeps

  predicate Numbered(log: seq<Record>) {
    forall i :: 0 <= i < |log| ==> log[i].ingestSeq == i + 1
  }

  /** No two stored records share a key. */
  ghost predicate KeysUnique(log: seq<Record>) {
    forall i, j :: 0 <= i < j < |log| && log[i].eventId != "" && log[j].eventId != "" ==>
      KeyOf(log[i]) != KeyOf(log[j])
  }

  ghost predicate Stamped(log: seq<Record>) {
    forall i :: 0 <= i < |log| ==> log[i].observedAt != ZERO_TIME
  }

  lemma AppendKeepsLog(log: seq<Record>, rec: Record, now: Time)
    requires Numbered(log) && KeysUnique(log) && Stamped(log) && now != ZERO_TIME
    ensures var log' := Append(log, rec, now); Numbered(log') && KeysUnique(log') && Stamped(log')
  {
    if !IsDuplicate(log, rec) && rec.eventId != "" {
      var log' := Append(log, rec, now);
      forall i | 0 <= i < |log| && log[i].eventId != "" ensures KeyOf(log[i]) != KeyOf(log'[|log|]) {
        assert !Indexed(log[i], KeyOf(rec));
      }
    }
  }

  /** A record is stored unless its stream has an event of its ID, with every field as it came but
      its number, and its time only where it came without one. */
  lemma AppendStores(log: seq<Record>, rec: Record, now: Time)
    requires Lacks(rec.streamId, NUL) && forall i :: 0 <= i < |log| ==> Lacks(log[i].streamId, NUL)
    ensures if rec.eventId != "" && (exists i :: 0 <= i < |log| && SameEvent(rec, log[i]))
              then Append(log, rec, now) == log
            else exists r :: Append(log, rec, now) == log + [r] && AsItCame(rec, r) && r.ingestSeq == |log| + 1 &&
                             r.observedAt == if rec.observedAt == 0 then now else rec.observedAt
  {
    forall i | 0 <= i < |log| ensures SameEvent(rec, log[i]) <==> Indexed(log[i], KeyOf(rec)) && rec.eventId != "" {
      KeyNamesEvent(rec, log[i]);
    }
    if IsDuplicate(log, rec) {
      var i :| 0 <= i < |log| && Indexed(log[i], KeyOf(rec));
      assert SameEvent(rec, log[i]);
    } else {
      var r := Append(log, rec, now)[|log|];
      assert Append(log, rec, now) == log + [r] && AsItCame(rec, r);
    }
  }

  predicate AsItCame(a: Record, b: Record) {
    && a.clusterId == b.clusterId && a.streamId == b.streamId && a.rtype == b.rtype && a.eventId == b.eventId
    && a.watchType == b.watchType && a.synthetic == b.synthetic && a.resource == b.resource
    && a.payload == b.payload && a.gap == b.gap && a.coverage == b.coverage && a.checkpoint == b.checkpoint
  }

  /** With NUL-free stream identifiers a key belongs to one stream and one event. */
  lemma KeyNamesEvent(r: Record, s: Record)
    requires Lacks(r.streamId, NUL) && Lacks(s.streamId, NUL)
    ensures KeyOf(r) == KeyOf(s) <==> r.streamId == s.streamId && r.eventId == s.eventId
  {
    if KeyOf(r) == KeyOf(s) { FirstCutIsInjective(r.streamId, r.eventId, s.streamId, s.eventId, NUL); }
  }

  // ---------------------------------------------------------------- at least once is exactly once

  function Keep(ds: seq<Delivery>, keep: seq<bool>): seq<Delivery>
    requires |ds| == |keep|
  {
    if ds == [] then []
    else Keep(ds[..|ds| - 1], keep[..|ds| - 1]) + (if keep[|ds| - 1] then [ds[|ds| - 1]] else [])
  }

  ghost predicate SameEvent(a: Record, b: Record) {
    a.eventId != "" && a.eventId == b.eventId && a.streamId == b.streamId
  }

  /** Delivery `i` repeats an event delivered before it, or one stored already. */
  ghost predicate Repeats(log: seq<Record>, ds: seq<Delivery>, i: nat)
    requires i < |ds|
  {
    || (exists j :: 0 <= j < i && SameEvent(ds[j].rec, ds[i].rec))
    || (exists k :: 0 <= k < |log| && SameEvent(log[k], ds[i].rec))
  }

  lemma AppendStoresKey(log: seq<Record>, rec: Record, now: Time)
    requires rec.eventId != ""
    ensures HasKey(Append(log, rec, now), KeyOf(rec))
  {
    var log' := Append(log, rec, now);
    if !IsDuplicate(log, rec) { assert Indexed(log'[|log|], KeyOf(rec)); }
  }

  lemma KeysSurvive(log: seq<Record>, log': seq<Record>, key: string)
    requires log <= log' && HasKey(log, key)
    ensures HasKey(log', key)
  {
    var i :| 0 <= i < |log| && Indexed(log[i], key);
    assert Indexed(log'[i], key);
  }

  lemma {:induction false} DeliveredIsStored(log: seq<Record>, ds: seq<Delivery>, j: nat)
    requires j < |ds| && ds[j].rec.eventId != ""
    ensures HasKey(Play(log, ds), KeyOf(ds[j].rec))
  {
    var n := |ds| - 1;
    if j == n {
      AppendStoresKey(Play(log, ds[..n]), ds[n].rec, ds[n].now);
    } else {
      DeliveredIsStored(log, ds[..n], j);
      KeysSurvive(Play(log, ds[..n]), Play(log, ds), KeyOf(ds[j].rec));
    }
  }

  lemma {:induction false} RepeatIsDuplicate(log: seq<Record>, ds: seq<Delivery>, i: nat)
    requires i < |ds| && Repeats(log, ds, i)
    ensures IsDuplicate(Play(log, ds[..i]), ds[i].rec)
  {
    if j :| 0 <= j < i && SameEvent(ds[j].rec, ds[i].rec) {
      DeliveredIsStored(log, ds[..i], j);
    } else {
      var k :| 0 <= k < |log| && SameEvent(log[k], ds[i].rec);
      assert Indexed(log[k], KeyOf(ds[i].rec));
      PlayExtends(log, ds[..i]);
      KeysSurvive(log, Play(log, ds[..i]), KeyOf(ds[i].rec));
    }
  }

  /** At-least-once delivery is exactly-once recording: dropping any repeats from a
      sequence of deliveries changes nothing that is stored. */
  lemma {:induction false} RepeatsChangeNothing(log: seq<Record>, ds: seq<Delivery>, keep: seq<bool>)
    requires |keep| == |ds|
    requires forall i :: 0 <= i < |ds| && !keep[i] ==> Repeats(log, ds, i)
    ensures Play(log, ds) == Play(log, Keep(ds, keep))
  {
    if ds != [] {
      var n := |ds| - 1;
      var es := Keep(ds[..n], keep[..n]);
      forall i | 0 <= i < n && !keep[..n][i] ensures Repeats(log, ds[..n], i) {
        assert Repeats(log, ds, i);
        if j :| 0 <= j < i && SameEvent(ds[j].rec, ds[i].rec) {
          assert SameEvent(ds[..n][j].rec, ds[..n][i].rec);
        }
      }
      RepeatsChangeNothing(log, ds[..n], keep[..n]);
      if keep[n] {
        assert Keep(ds, keep)[..|es|] == es;
      } else {
        RepeatIsDuplicate(log, ds, n);
        assert Keep(ds, keep) == es;
      }
    }
  }

  // ---------------------------------------------------------------- one stream's records

  function ForStream(log: seq<Record>, streamId: string): seq<Record> {
    if log == [] then []
    else
      var rest := ForStream(log[..|log| - 1], streamId);
      if log[|log| - 1].streamId == streamId then rest + [log[|log| - 1]] else rest
  }

  ghost predicate Increasing(rs: seq<Record>) {
    forall i, j :: 0 <= i < j < |rs| ==> rs[i].ingestSeq < rs[j].ingestSeq
  }

  /** `rs` are records of `log`, each at the place its number says. */
  ghost predicate TakenFrom(log: seq<Record>, rs: seq<Record>) {
    forall i :: 0 <= i < |rs| ==> 1 <= rs[i].ingestSeq <= |log| && rs[i] == log[rs[i].ingestSeq - 1]
  }

  /** A stream's records are in ingest order: their numbers strictly increase. */
  lemma {:induction false} ForStreamInOrder(log: seq<Record>, streamId: string)
    requires Numbered(log)
    ensures Increasing(ForStream(log, streamId)) && TakenFrom(log, ForStream(log, streamId))
  {
    if log != [] {
      var init := log[..|log| - 1];
      ForStreamInOrder(init, streamId);
      var rest, rs := ForStream(init, streamId), ForStream(log, streamId);
      assert rest <= rs <= rest + [log[|log| - 1]];
      forall i | 0 <= i < |rest| ensures 1 <= rs[i].ingestSeq <= |log| && rs[i] == log[rs[i].ingestSeq - 1] {
        assert rs[i] == rest[i];
      }
    }
  }

  lemma {:induction false} ForStreamMembers(log: seq<Record>, streamId: string, r: Record)
    ensures r in ForStream(log, streamId) <==> r in log && r.streamId == streamId
  {
    if log != [] {
      ForStreamMembers(log[..|log| - 1], streamId, r);
      assert log == log[..|log| - 1] + [log[|log| - 1]];
    }
  }

  // ---------------------------------------------------------------- stream health

  /** The row of a stream, with its observation times advanced to `rec`. */
  function Observe(prev: Option<StreamMeta>, rec: Record): StreamMeta {
    var m0 := match prev
      case Some(m) => m
      case None => StreamMeta(rec.streamId, rec.clusterId, false, ZERO_TIME, ZERO_TIME, "", 0, false, false);
    m0.(firstObservedAt := if m0.firstObservedAt == ZERO_TIME then rec.observedAt else m0.firstObservedAt,
        lastObservedAt := if rec.observedAt > m0.lastObservedAt then rec.observedAt else m0.lastObservedAt)
  }

  /** What the type of `rec` does to the row. */
  function Classify(m: StreamMeta, rec: Record): (m': StreamMeta)
    ensures m'.firstObservedAt == m.firstObservedAt && m'.lastObservedAt == m.lastObservedAt
    ensures m'.streamId == m.streamId && m'.clusterId == m.clusterId
  {
    var rv := rec.resource.resourceVersion;
    match rec.rtype
    case Gap => m.(gapCount := m.gapCount + 1, hasGaps := true, degraded := true)
    case Baseline =>
      m.(available := true, degraded := false, lastResourceVersion := if rv != "" then rv else m.lastResourceVersion)
    case CoverageChange =>
      if rec.coverage.Some? then m.(available := rec.coverage.value, degraded := !rec.coverage.value) else m
    case Checkpoint =>
      if rec.checkpoint.Some? then m.(lastResourceVersion := rec.checkpoint.value) else m
    case Event => if rv != "" then m.(lastResourceVersion := rv) else m
    case _ => m
  }

  /** One record's effect on its stream's health (`updateMeta`). */
  function MetaStep(prev: Option<StreamMeta>, rec: Record): StreamMeta {
    Classify(Observe(prev, rec), rec)
  }

  function MetaOf(recs: seq<Record>): Option<StreamMeta> {
    if recs == [] then None else Some(MetaStep(MetaOf(recs[..|recs| - 1]), recs[|recs| - 1]))
  }

  function GapsIn(recs: seq<Record>): nat {
    if recs == [] then 0 else GapsIn(recs[..|recs| - 1]) + if recs[|recs| - 1].rtype == Gap then 1 else 0
  }

  lemma {:induction false} MetaCounts(recs: seq<Record>)
    requires recs != []
    ensures var m := MetaOf(recs).value; m.gapCount == GapsIn(recs) && (m.hasGaps <==> m.gapCount > 0)
  {
    var n := |recs| - 1;
    if n > 0 { MetaCounts(recs[..n]); } else { assert recs[..n] == []; }
  }

  ghost predicate LatestOf(t: Time, recs: seq<Record>) {
    && (forall i :: 0 <= i < |recs| ==> recs[i].observedAt <= t)
    && (exists i :: 0 <= i < |recs| && recs[i].observedAt == t)
  }

  lemma LatestGrows(t: Time, recs: seq<Record>, rec: Record)
    requires LatestOf(t, recs)
    ensures LatestOf(if rec.observedAt > t then rec.observedAt else t, recs + [rec])
  {
    var all := recs + [rec];
    var i :| 0 <= i < |recs| && recs[i].observedAt == t;
    assert all[i].observedAt == t && all[|recs|] == rec;
  }

  lemma {:induction false} MetaTimes(recs: seq<Record>)
    requires recs != []
    requires forall i :: 0 <= i < |recs| ==> recs[i].observedAt > ZERO_TIME
    ensures MetaOf(recs).value.firstObservedAt == recs[0].observedAt
    ensures LatestOf(MetaOf(recs).value.lastObservedAt, recs)
  {
    var n := |recs| - 1;
    assert recs == recs[..n] + [recs[n]];
    if n > 0 {
      MetaTimes(recs[..n]);
      LatestGrows(MetaOf(recs[..n]).value.lastObservedAt, recs[..n], recs[n]);
    } else {
      assert recs[..n] == [];
      assert recs[0].observedAt == MetaOf(recs).value.lastObservedAt;
    }
  }

  // ---------------------------------------------------------------- the last record that tells

  /** `v` is what the last record that tells anything tells, or `none` if no record does. */
  ghost predicate LastTold<T>(recs: seq<Record>, tells: Record -> Option<T>, none: T, v: T) {
    || (exists i :: TellsLast(recs, tells, i) && tells(recs[i]) == Some(v))
    || (v == none && forall j :: 0 <= j < |recs| ==> tells(recs[j]).None?)
  }

  ghost predicate TellsLast<T>(recs: seq<Record>, tells: Record -> Option<T>, i: int) {
    0 <= i < |recs| && tells(recs[i]).Some? && forall j :: i < j < |recs| ==> tells(recs[j]).None?
  }

  lemma LastToldSnoc<T>(recs: seq<Record>, rec: Record, tells: Record -> Option<T>, none: T, v: T)
    requires LastTold(recs, tells, none, v)
    ensures LastTold(recs + [rec], tells, none, tells(rec).GetOr(v))
  {
    var all := recs + [rec];
    assert all[|recs|] == rec && forall j :: 0 <= j < |recs| ==> all[j] == recs[j];
    if tells(rec).Some? {
      assert TellsLast(all, tells, |recs|);
    } else if i :| TellsLast(recs, tells, i) && tells(recs[i]) == Some(v) {
      assert TellsLast(all, tells, i);
    }
  }

  lemma LastToldNext<T>(recs: seq<Record>, tells: Record -> Option<T>, none: T, v: T)
    requires recs != [] && LastTold(recs[..|recs| - 1], tells, none, v)
    ensures LastTold(recs, tells, none, tells(recs[|recs| - 1]).GetOr(v))
  {
    assert recs == recs[..|recs| - 1] + [recs[|recs| - 1]];
    LastToldSnoc(recs[..|recs| - 1], recs[|recs| - 1], tells, none, v);
  }

  /** The resource version a record leaves in its stream's row. */
  function RowVersion(rec: Record): Option<string> {
    if rec.rtype == Checkpoint then rec.checkpoint
    else if (rec.rtype == Baseline || rec.rtype == Event) && rec.resource.resourceVersion != ""
    then Some(rec.resource.resourceVersion) else None
  }

  /** Whether it makes the stream available. */
  function RowAvailable(rec: Record): Option<bool> {
    if rec.rtype == Baseline then Some(true) else if rec.rtype == CoverageChange then rec.coverage else None
  }

  /** Whether it degrades the stream. */
  function RowDegraded(rec: Record): Option<bool> {
    if rec.rtype == Gap then Some(true)
    else if rec.rtype == Baseline then Some(false)
    else if rec.rtype == CoverageChange && rec.coverage.Some? then Some(!rec.coverage.value) else None
  }

  lemma MetaStepTells(m: Option<StreamMeta>, rec: Record)
    ensures var to := MetaStep(m, rec);
            var from := m.GetOr(StreamMeta(rec.streamId, rec.clusterId, false, 0, 0, "", 0, false, false));
            && to.streamId == from.streamId && to.clusterId == from.clusterId
            && to.lastResourceVersion == RowVersion(rec).GetOr(from.lastResourceVersion)
            && to.available == RowAvailable(rec).GetOr(from.available)
            && to.degraded == RowDegraded(rec).GetOr(from.degraded)
  {
  }

  ghost predicate RowTold(recs: seq<Record>, m: StreamMeta)
    requires recs != []
  {
    && m.streamId == recs[0].streamId && m.clusterId == recs[0].clusterId
    && LastTold(recs, RowVersion, "", m.lastResourceVersion)
    && LastTold(recs, RowAvailable, false, m.available)
    && LastTold(recs, RowDegraded, false, m.degraded)
  }

  /** Which records the other fields of a health row come from. */
  lemma {:induction false} MetaTold(recs: seq<Record>)
    requires recs != []
    ensures RowTold(recs, MetaOf(recs).value)
  {
    var n := |recs| - 1;
    if n > 0 { MetaTold(recs[..n]); } else { assert recs[..n] == []; }
    var m := MetaOf(recs[..n]).GetOr(StreamMeta(recs[n].streamId, recs[n].clusterId, false, 0, 0, "", 0, false, false));
    MetaStepTells(MetaOf(recs[..n]), recs[n]);
    LastToldNext(recs, RowVersion, "", m.lastResourceVersion);
    LastToldNext(recs, RowAvailable, false, m.available);
    LastToldNext(recs, RowDegraded, false, m.degraded);
  }
}
