/** The SQLite store refines the journal the in-memory store is proved against. */
module SqlRefines {
  import opened Text
  import opened Events
  import opened Journal
  import MemoryStore
  import opened Reducer
  import opened Cluster
  import Clock
  import opened SqlStore

  /** What the two stores need of their environment: a timestamp codec that is exact to the
      millisecond on good instants. */
  datatype World = World(codec: Codec, good: Time -> bool)

  ghost predicate Faithful(w: World) {
    && (forall a :: w.good(a) ==>
          a > 0 && w.codec.format(a) != "" && w.codec.parse(w.codec.format(a)) == Clock.Milli(a) * Clock.MILLI)
    && (forall a, b :: w.good(a) && w.good(b) ==>
          (Before(w.codec.format(a), w.codec.format(b)) <==> Clock.Milli(a) < Clock.Milli(b)) &&
          (w.codec.format(a) == w.codec.format(b) <==> Clock.Milli(a) == Clock.Milli(b)))
  }

  /** Only the zero time has the empty text. */
  ghost predicate Dates(w: World) { forall a :: a != ZERO_TIME ==> w.codec.format(a) != "" }

  /** Every instant is good to read back. */
  ghost predicate GoodLog(w: World, log: seq<Record>) { forall k :: 0 <= k < |log| ==> w.good(log[k].observedAt) }

  // ---------------------------------------------------------------- the relation

  predicate RowMatches(w: World, row: Row, r: Record) {
    row.rec == Bare(r) && row.observedAt == w.codec.format(r.observedAt)
  }

  ghost predicate RowsMatch(w: World, rows: seq<Row>, log: seq<Record>) {
    |rows| == |log| && forall k :: 0 <= k < |log| ==> RowMatches(w, rows[k], log[k])
  }

  ghost predicate IdsGrow(rows: seq<Row>) {
    && (forall k :: 0 <= k < |rows| ==> rows[k].id > 0)
    && (forall j, k :: 0 <= j < k < |rows| ==> rows[j].id < rows[k].id)
  }

  /** The stored row of a health row, with a given cluster and text of the last time. */
  function MetaImage(w: World, m: StreamMeta, cluster: string, last: string): MetaRow {
    MetaRow(cluster, m.available, w.codec.format(m.firstObservedAt), last, m.lastResourceVersion, m.gapCount,
            m.degraded)
  }

  function Image(w: World, m: Option<StreamMeta>, cluster: string, last: string): Option<MetaRow> {
    match m case Some(m) => Some(MetaImage(w, m, cluster, last)) case None => None
  }

  /** The cluster the stream's last record names. */
  function LastCluster(log: seq<Record>, s: string): string {
    if log == [] then ""
    else if log[|log| - 1].streamId == s then log[|log| - 1].clusterId
    else LastCluster(log[..|log| - 1], s)
  }

  function LaterText(a: string, b: string): string { if a == "" || Before(a, b) then b else a }

  /** The greatest of the texts of the stream's times. */
  function LastText(w: World, log: seq<Record>, s: string): string {
    if log == [] then ""
    else
      var before, r := LastText(w, log[..|log| - 1], s), log[|log| - 1];
      if r.streamId == s then LaterText(before, w.codec.format(r.observedAt)) else before
  }

  function MemoryMeta(log: seq<Record>, s: string): Option<StreamMeta> {
    var m := MemoryStore.StreamsOf(log);
    if s in m then Some(m[s]) else None
  }

  /** The health rows agree. In SQLite the cluster of a row is that of the stream's last record and
      its last time the greatest text; `RowsAlike` says when this is what the row in memory has. */
  ghost predicate MetasMatch(w: World, t: Tables, log: seq<Record>) {
    forall s :: MetaAt(t, s) == Image(w, MemoryMeta(log, s), LastCluster(log, s), LastText(w, log, s))
  }

  /** Same records in the same order, growing numbers, same health rows. */
  ghost predicate Refines(w: World, t: Tables, log: seq<Record>) {
    RowsMatch(w, t.rows, log) && IdsGrow(t.rows) && MetasMatch(w, t, log)
  }

  // ---------------------------------------------------------------- duplicates

  /** Two records with one key of the in-memory index: stream and event, joined by NUL. */
  predicate SameKey(x: Record, y: Record) { x.eventId != "" && y.eventId != "" && KeyOf(x) == KeyOf(y) }

  /** Two records that the unique index of SQLite takes for one. */
  predicate SameRow(x: Record, y: Record) {
    x.clusterId == y.clusterId && x.streamId == y.streamId && x.eventId == y.eventId
  }

  ghost predicate Holds(xs: seq<Record>, rec: Record) { exists i :: 0 <= i < |xs| && SameKey(xs[i], rec) }

  ghost predicate HoldsRow(xs: seq<Record>, rec: Record) {
    exists i :: 0 <= i < |xs| && SameKey(xs[i], rec) && SameRow(xs[i], rec)
  }

  /** `xs` has the key of `rec` from another event, or from another cluster. */
  ghost predicate HoldsOther(xs: seq<Record>, rec: Record) {
    exists i :: 0 <= i < |xs| && SameKey(xs[i], rec) && !SameRow(xs[i], rec)
  }

  /** No key stands for two rows. */
  ghost predicate OneRowPerKey(xs: seq<Record>) {
    forall i, j :: 0 <= i < j < |xs| && SameKey(xs[i], xs[j]) ==> SameRow(xs[i], xs[j])
  }

  /** No event comes from two clusters. */
  ghost predicate OneClusterPerEvent(xs: seq<Record>) {
    forall i, j :: 0 <= i < j < |xs| && SameEvent(xs[i], xs[j]) ==> xs[i].clusterId == xs[j].clusterId
  }

  /** With NUL-free stream IDs a key stands for two rows only if an event comes from two clusters. */
  lemma PlainKeys(xs: seq<Record>)
    requires forall i :: 0 <= i < |xs| ==> Lacks(xs[i].streamId, NUL)
    ensures OneRowPerKey(xs) <==> OneClusterPerEvent(xs)
  {
    forall i, j | 0 <= i < j < |xs|
      ensures (SameKey(xs[i], xs[j]) ==> SameRow(xs[i], xs[j])) <==>
              (SameEvent(xs[i], xs[j]) ==> xs[i].clusterId == xs[j].clusterId)
    {
      KeyNamesEvent(xs[i], xs[j]);
    }
  }

  lemma DuplicateIsHeld(log: seq<Record>, rec: Record)
    ensures IsDuplicate(log, rec) <==> Holds(log, rec)
  {
    if IsDuplicate(log, rec) {
      var i :| 0 <= i < |log| && Indexed(log[i], KeyOf(rec));
      assert SameKey(log[i], rec);
    }
    if Holds(log, rec) {
      var i :| 0 <= i < |log| && SameKey(log[i], rec);
      assert Indexed(log[i], KeyOf(rec));
    }
  }

  lemma {:induction false} ClashIsHeld(w: World, rows: seq<Row>, log: seq<Record>, rec: Record)
    requires RowsMatch(w, rows, log)
    ensures FindClash(rows, rec).Some? <==> HoldsRow(log, rec)
  {
    if FindClash(rows, rec).Some? {
      var k := FindClash(rows, rec).value;
      assert RowMatches(w, rows[k], log[k]) && SameKey(log[k], rec);
    }
    if HoldsRow(log, rec) {
      var i :| 0 <= i < |log| && SameKey(log[i], rec) && SameRow(log[i], rec);
      assert RowMatches(w, rows[i], log[i]);
      assert Clashes(rows[i], rec);
    }
  }

  /** The two indexes part on a record exactly when its key is stored from another row: in memory a
      key is a stream and an event, in SQLite a cluster, a stream and an event. */
  lemma {:induction false} ClashIsDuplicate(w: World, rows: seq<Row>, log: seq<Record>, rec: Record)
    requires RowsMatch(w, rows, log) && KeysUnique(log)
    ensures (FindClash(rows, rec).Some? <==> IsDuplicate(log, rec)) <==> !HoldsOther(log, rec)
    ensures FindClash(rows, rec).Some? ==> IsDuplicate(log, rec)
  {
    DuplicateIsHeld(log, rec);
    ClashIsHeld(w, rows, log, rec);
    UniqueKeysOneRow(log);
    HeldHow(log, rec);
  }

  lemma UniqueKeysOneRow(log: seq<Record>)
    requires KeysUnique(log)
    ensures OneRowPerKey(log)
  {
  }

  /** The next record's key, seen from the records before it. */
  lemma HeldHow(xs: seq<Record>, x: Record)
    ensures HoldsRow(xs, x) ==> Holds(xs, x)
    ensures HoldsOther(xs, x) ==> Holds(xs, x)
    ensures !HoldsOther(xs, x) ==> (Holds(xs, x) <==> HoldsRow(xs, x))
    ensures OneRowPerKey(xs) && HoldsOther(xs, x) ==> !HoldsRow(xs, x)
  {
    if OneRowPerKey(xs) && HoldsOther(xs, x) {
      var i :| 0 <= i < |xs| && SameKey(xs[i], x) && !SameRow(xs[i], x);
      forall j | 0 <= j < |xs| && SameKey(xs[j], x) ensures !SameRow(xs[j], x) {
        if j < i { assert SameKey(xs[j], xs[i]); } else if i < j { assert SameKey(xs[i], xs[j]); }
      }
    }
  }

  // ---------------------------------------------------------------- health rows

  lemma {:induction false} FirstIsSet(w: World, log: seq<Record>, s: string)
    requires Stamped(log)
    ensures var m := MemoryMeta(log, s); m.Some? ==> m.value.firstObservedAt != ZERO_TIME
    ensures MemoryMeta(log, s).None? ==> s == "" || LastText(w, log, s) == ""
  {
    if log != [] {
      var init, r := log[..|log| - 1], log[|log| - 1];
      assert Stamped(init);
      FirstIsSet(w, init, s);
    }
  }

  lemma ClassifyRefines(w: World, m: StreamMeta, r: Record, cluster: string, last: string)
    ensures ClassifyRow(MetaImage(w, m, cluster, last), r) == MetaImage(w, Classify(m, r), cluster, last)
  {
  }

  /** One record does to the stored health row what it does to the one in memory, times compared as
      texts. */
  lemma UpsertRefines(w: World, m: Option<StreamMeta>, cluster: string, last: string, r: Record)
    requires Dates(w) && r.observedAt != ZERO_TIME
    requires if m.Some? then m.value.firstObservedAt != ZERO_TIME else last == ""
    ensures var at := w.codec.format(r.observedAt);
            UpsertMeta(Image(w, m, cluster, last), r, at) ==
            MetaImage(w, MetaStep(m, r), r.clusterId, LaterText(last, at))
  {
    ClassifyRefines(w, Observe(m, r), r, r.clusterId, LaterText(last, w.codec.format(r.observedAt)));
  }

  lemma MetasAfter(w: World, t: Tables, log: seq<Record>, r: Record, t': Tables)
    requires Dates(w) && Stamped(log) && r.observedAt != ZERO_TIME && MetasMatch(w, t, log)
    requires t'.metas == if r.streamId == "" then t.metas
                         else t.metas[r.streamId := UpsertMeta(MetaAt(t, r.streamId), r, w.codec.format(r.observedAt))]
    ensures MetasMatch(w, t', log + [r])
  {
    var x := r.streamId;
    FirstIsSet(w, log, x);
    if x != "" { UpsertRefines(w, MemoryMeta(log, x), LastCluster(log, x), LastText(w, log, x), r); }
    assert MetaAt(t, x) == Image(w, MemoryMeta(log, x), LastCluster(log, x), LastText(w, log, x));
    forall s
      ensures MetaAt(t', s) == Image(w, MemoryMeta(log + [r], s), LastCluster(log + [r], s), LastText(w, log + [r], s))
    {
      assert MetaAt(t, s) == Image(w, MemoryMeta(log, s), LastCluster(log, s), LastText(w, log, s));
      MemoryMetaSnoc(w, log, r, s);
    }
  }

  lemma {:induction false} MemoryMetaSnoc(w: World, log: seq<Record>, r: Record, s: string)
    ensures MemoryMeta(log + [r], s) ==
            if s == r.streamId != "" then Some(MetaStep(MemoryMeta(log, s), r)) else MemoryMeta(log, s)
    ensures LastCluster(log + [r], s) == if s == r.streamId then r.clusterId else LastCluster(log, s)
    ensures LastText(w, log + [r], s) ==
            if s == r.streamId then LaterText(LastText(w, log, s), w.codec.format(r.observedAt))
            else LastText(w, log, s)
    ensures MemoryMeta(log, "").None?
  {
    MemoryStore.MapsStep(log, r);
    NoMetaWithoutStream(log);
    assert (log + [r])[..|log|] == log;
  }

  lemma {:induction false} NoMetaWithoutStream(log: seq<Record>)
    ensures MemoryMeta(log, "").None?
  {
    if log != [] { NoMetaWithoutStream(log[..|log| - 1]); }
  }

  lemma {:induction false} MemoryKeepsFirst(recs: seq<Record>)
    requires recs != []
    ensures MetaOf(recs).Some? && MetaOf(recs).value.clusterId == recs[0].clusterId
  {
    if |recs| > 1 { MemoryKeepsFirst(recs[..|recs| - 1]); }
  }

  lemma {:induction false} SqlKeepsLast(log: seq<Record>, s: string)
    ensures var rs := ForStream(log, s); rs != [] ==> LastCluster(log, s) == rs[|rs| - 1].clusterId
  {
    if log != [] { SqlKeepsLast(log[..|log| - 1], s); }
  }

  /** The greatest text is the text of some record, and none is after it. */
  lemma {:induction false} LastTextMeaning(w: World, log: seq<Record>, s: string)
    requires Dates(w) && Stamped(log)
    ensures var rs, last := ForStream(log, s), LastText(w, log, s);
            && (rs == [] ==> last == "")
            && (rs != [] ==> exists i :: 0 <= i < |rs| && last == w.codec.format(rs[i].observedAt))
            && forall i :: 0 <= i < |rs| ==> !Before(last, w.codec.format(rs[i].observedAt))
  {
    if log != [] {
      var init, r := log[..|log| - 1], log[|log| - 1];
      assert Stamped(init);
      LastTextMeaning(w, init, s);
      if r.streamId == s {
        LaterTextIsGreatest(w, ForStream(init, s), LastText(w, init, s), r);
        assert ForStream(log, s) == ForStream(init, s) + [r];
      }
    }
  }

  lemma {:induction false} LaterTextIsGreatest(w: World, rs: seq<Record>, last: string, r: Record)
    requires w.codec.format(r.observedAt) != "" && (rs == [] ==> last == "")
    requires rs != [] ==> exists i :: 0 <= i < |rs| && last == w.codec.format(rs[i].observedAt)
    requires forall i :: 0 <= i < |rs| ==> !Before(last, w.codec.format(rs[i].observedAt))
    ensures var rs', last' := rs + [r], LaterText(last, w.codec.format(r.observedAt));
            && (exists i :: 0 <= i < |rs'| && last' == w.codec.format(rs'[i].observedAt))
            && forall i :: 0 <= i < |rs'| ==> !Before(last', w.codec.format(rs'[i].observedAt))
  {
    var rs', at := rs + [r], w.codec.format(r.observedAt);
    var last' := LaterText(last, at);
    assert rs'[|rs|] == r;
    if last' != at {
      var i :| 0 <= i < |rs| && last == w.codec.format(rs[i].observedAt);
      assert rs'[i] == rs[i];
    }
    forall i | 0 <= i < |rs'| ensures !Before(last', w.codec.format(rs'[i].observedAt)) {
      BeforeIsStrict(at);
      if i < |rs| && last' == at && Before(at, w.codec.format(rs[i].observedAt)) {
        if last != "" && Before(last, at) { BeforeIsTransitive(last, at, w.codec.format(rs[i].observedAt)); }
      }
    }
  }

  /** A stream's two health rows are the same exactly when its first and last stored records name the
      same cluster and no text of its times is after that of the latest. */
  lemma {:induction false} RowsAlike(w: World, t: Tables, log: seq<Record>, s: string)
    requires Dates(w) && Stamped(log) && MetasMatch(w, t, log) && s != "" && ForStream(log, s) != []
    requires forall i :: 0 <= i < |ForStream(log, s)| ==> ForStream(log, s)[i].observedAt > ZERO_TIME
    ensures MemoryMeta(log, s).Some?
    ensures var rs, m := ForStream(log, s), MemoryMeta(log, s).value;
            var latest := w.codec.format(m.lastObservedAt);
            MetaAt(t, s) == Some(MetaImage(w, m, m.clusterId, latest)) <==>
            rs[0].clusterId == rs[|rs| - 1].clusterId &&
            forall i :: 0 <= i < |rs| ==> !Before(latest, w.codec.format(rs[i].observedAt))
  {
    var rs := ForStream(log, s);
    MemoryStore.StreamsMeaning(log, s);
    MemoryKeepsFirst(rs);
    SqlKeepsLast(log, s);
    assert MetaAt(t, s) == Image(w, MemoryMeta(log, s), LastCluster(log, s), LastText(w, log, s));
    LastTextMeaning(w, log, s);
    MetaTimes(rs);
    LatestText(w, rs, LastText(w, log, s), MemoryMeta(log, s).value.lastObservedAt);
  }

  /** The greatest text is that of the latest time exactly when no text is after it. */
  lemma LatestText(w: World, rs: seq<Record>, last: string, latest: Time)
    requires exists i :: 0 <= i < |rs| && last == w.codec.format(rs[i].observedAt)
    requires forall i :: 0 <= i < |rs| ==> !Before(last, w.codec.format(rs[i].observedAt))
    requires LatestOf(latest, rs)
    ensures last == w.codec.format(latest) <==>
            forall i :: 0 <= i < |rs| ==> !Before(w.codec.format(latest), w.codec.format(rs[i].observedAt))
  {
    var i :| 0 <= i < |rs| && last == w.codec.format(rs[i].observedAt);
    BeforeIsTotal(last, w.codec.format(latest));
  }

  // ---------------------------------------------------------------- one record

  lemma RowsAfter(w: World, rows: seq<Row>, log: seq<Record>, r: Record, skip: nat)
    requires RowsMatch(w, rows, log) && IdsGrow(rows)
    ensures var rows' := rows + [Row(LastId(rows) + 1 + skip, w.codec.format(r.observedAt), Bare(r))];
            RowsMatch(w, rows', log + [r]) && IdsGrow(rows')
  {
  }

  lemma FormNumbered(prev: Option<MetaRow>, r: Record, n: int, at: string)
    ensures UpsertMeta(prev, r.(ingestSeq := n), at) == UpsertMeta(prev, r, at)
    ensures Bare(r.(ingestSeq := n)) == Bare(r)
  {
  }

  lemma {:induction false} NewRowRefines(w: World, t: Tables, log: seq<Record>, r: Record, skip: nat, n: int)
    requires Dates(w) && Stamped(log) && r.observedAt != ZERO_TIME && Refines(w, t, log) && FindClash(t.rows, r).None?
    ensures Refines(w, Insert(t, r, w.codec.format(r.observedAt), skip), log + [r.(ingestSeq := n)])
  {
    var at := w.codec.format(r.observedAt);
    var r', t' := r.(ingestSeq := n), Insert(t, r, at, skip);
    FormNumbered(MetaAt(t, r.streamId), r, n, at);
    RowsAfter(w, t.rows, log, r', skip);
    NewMetas(t, r, at, skip);
    MetasAfter(w, t, log, r', t');
  }

  lemma {:induction false} NewMetas(t: Tables, r: Record, at: string, skip: nat)
    requires FindClash(t.rows, r).None?
    ensures var t' := Insert(t, r, at, skip);
            && t'.rows == t.rows + [Row(LastId(t.rows) + 1 + skip, at, Bare(r))]
            && t'.metas == if r.streamId == "" then t.metas
                           else t.metas[r.streamId := UpsertMeta(MetaAt(t, r.streamId), r, at)]
  {
  }

  /** The number answered is that of the row of the same event, as in memory. */
  ghost predicate AnswersRow(t: Tables, log: seq<Record>, rec: Record, number: int) {
    exists k: nat :: k < |t.rows| && t.rows[k].id == number && MemoryStore.Answers(log, rec, k + 1)
  }

  /** Records taken alike, as new or as known, leave agreeing states agreeing. */
  lemma TakenAlike(w: World, t: Tables, log: seq<Record>, d: SqlDelivery)
    requires Dates(w) && Stamped(log) && Refines(w, t, log) && Stamp(d.rec, d.now).observedAt != ZERO_TIME
    requires FindClash(t.rows, d.rec).Some? <==> IsDuplicate(log, d.rec)
    ensures Refines(w, InsertOne(t, d, w.codec.format), Append(log, d.rec, d.now))
  {
    var r := Stamp(d.rec, d.now);
    SameClash(t.rows, r, d.rec);
    if FindClash(t.rows, r).None? { NewRowRefines(w, t, log, r, d.skip, |log| + 1); }
  }

  lemma AnsweredAlike(w: World, t: Tables, log: seq<Record>, d: SqlDelivery)
    requires RowsMatch(w, t.rows, log)
    requires FindClash(t.rows, d.rec).Some? <==> IsDuplicate(log, d.rec)
    ensures AnswersRow(InsertOne(t, d, w.codec.format), Append(log, d.rec, d.now), d.rec, NumberOf(t, d.rec, d.skip))
  {
    var t', log' := InsertOne(t, d, w.codec.format), Append(log, d.rec, d.now);
    SameClash(t.rows, Stamp(d.rec, d.now), d.rec);
    if IsDuplicate(log, d.rec) {
      var k := FindClash(t.rows, d.rec).value;
      assert RowMatches(w, t.rows[k], log[k]) && Clashes(t.rows[k], d.rec);
      assert MemoryStore.Answers(log', d.rec, k + 1);
    } else {
      assert t'.rows[|log|].id == NumberOf(t, d.rec, d.skip);
      assert MemoryStore.Answers(log', d.rec, |log| + 1);
    }
  }

  /** ONE APPEND: from agreeing states, both stores take the record or both know it already,
      agree again and answer with the same record, exactly when the journal does not hold its
      key from another row. */
  lemma InsertRefines(w: World, t: Tables, log: seq<Record>, d: SqlDelivery)
    requires Dates(w) && Stamped(log) && KeysUnique(log) && Refines(w, t, log)
    requires Stamp(d.rec, d.now).observedAt != ZERO_TIME
    ensures var t', log' := InsertOne(t, d, w.codec.format), Append(log, d.rec, d.now);
            && (Refines(w, t', log') <==> !HoldsOther(log, d.rec))
            && (Refines(w, t', log') ==> AnswersRow(t', log', d.rec, NumberOf(t, d.rec, d.skip)))
  {
    ClashIsDuplicate(w, t.rows, log, d.rec);
    SameClash(t.rows, Stamp(d.rec, d.now), d.rec);
    if HoldsOther(log, d.rec) {
      assert |InsertOne(t, d, w.codec.format).rows| == |log| + 1;
    } else {
      TakenAlike(w, t, log, d);
      AnsweredAlike(w, t, log, d);
    }
  }

  // ---------------------------------------------------------------- a batch

  function Handed(ds: seq<SqlDelivery>): seq<Delivery> {
    seq(|ds|, i requires 0 <= i < |ds| => Delivery(ds[i].rec, ds[i].now))
  }

  ghost predicate AllStamped(ds: seq<SqlDelivery>) {
    forall i :: 0 <= i < |ds| ==> Stamp(ds[i].rec, ds[i].now).observedAt != ZERO_TIME
  }

  function Records(ds: seq<SqlDelivery>): seq<Record> { seq(|ds|, i requires 0 <= i < |ds| => ds[i].rec) }

  lemma {:induction false} StaysStamped(log: seq<Record>, ds: seq<SqlDelivery>)
    requires Stamped(log) && AllStamped(ds)
    ensures Stamped(Play(log, Handed(ds)))
  {
    if ds != [] {
      var n := |ds| - 1;
      assert Handed(ds)[..n] == Handed(ds[..n]);
      assert AllStamped(ds[..n]) && Stamp(ds[n].rec, ds[n].now).observedAt != ZERO_TIME;
      StaysStamped(log, ds[..n]);
    }
  }

  lemma HoldsSnoc(xs: seq<Record>, x: Record, rec: Record)
    ensures Holds(xs + [x], rec) <==> Holds(xs, rec) || SameKey(x, rec)
    ensures HoldsRow(xs + [x], rec) <==>
            HoldsRow(xs, rec) || (SameKey(x, rec) && SameRow(x, rec))
  {
    var ys := xs + [x];
    assert ys[|xs|] == x;
    if Holds(xs, rec) {
      var i :| 0 <= i < |xs| && SameKey(xs[i], rec);
      assert SameKey(ys[i], rec);
    }
    if HoldsRow(xs, rec) {
      var i :| 0 <= i < |xs| && SameKey(xs[i], rec) && SameRow(xs[i], rec);
      assert SameKey(ys[i], rec);
    }
  }

  lemma OneRowSnoc(xs: seq<Record>, x: Record)
    ensures OneRowPerKey(xs + [x]) <==> OneRowPerKey(xs) && !HoldsOther(xs, x)
  {
    var ys := xs + [x];
    assert ys[|xs|] == x && forall i :: 0 <= i < |xs| ==> ys[i] == xs[i];
    if OneRowPerKey(ys) {
      forall i, j | 0 <= i < j < |xs| && SameKey(xs[i], xs[j]) ensures SameRow(xs[i], xs[j]) {
        assert SameKey(ys[i], ys[j]);
      }
      forall i | 0 <= i < |xs| && SameKey(xs[i], x) ensures SameRow(xs[i], x) {
        assert SameKey(ys[i], ys[|xs|]);
      }
    }
  }

  /** What the in-memory index knows after a batch: the keys of the journal and of the batch. */
  lemma {:induction false} IndexAfter(log: seq<Record>, ds: seq<SqlDelivery>, rec: Record)
    ensures IsDuplicate(Play(log, Handed(ds)), rec) <==> Holds(log + Records(ds), rec)
  {
    DuplicateIsHeld(Play(log, Handed(ds)), rec);
    if ds == [] {
      assert log + Records(ds) == log;
    } else {
      var n := |ds| - 1;
      var was := Play(log, Handed(ds[..n]));
      assert Handed(ds)[..n] == Handed(ds[..n]);
      assert log + Records(ds) == (log + Records(ds[..n])) + [ds[n].rec];
      IndexAfter(log, ds[..n], rec);
      IndexAfter(log, ds[..n], ds[n].rec);
      HoldsSnoc(log + Records(ds[..n]), ds[n].rec, rec);
      DuplicateIsHeld(was, rec);
      DuplicateIsHeld(was, ds[n].rec);
      IndexGrows(was, ds[n].rec, ds[n].now, rec);
    }
  }

  lemma IndexGrows(log: seq<Record>, x: Record, now: Time, rec: Record)
    requires Holds(log, x) <==> IsDuplicate(log, x)
    ensures Holds(Append(log, x, now), rec) <==> Holds(log, rec) || SameKey(x, rec)
  {
    if IsDuplicate(log, x) {
      var i :| 0 <= i < |log| && SameKey(log[i], x);
      if SameKey(x, rec) { assert SameKey(log[i], rec); }
    } else {
      HoldsSnoc(log, Stamp(x, now).(ingestSeq := |log| + 1), rec);
    }
  }

  /** The records of the rows. */
  function Stored(rows: seq<Row>): seq<Record> { seq(|rows|, i requires 0 <= i < |rows| => rows[i].rec) }

  lemma {:induction false} ClashIsStored(rows: seq<Row>, rec: Record)
    ensures FindClash(rows, rec).Some? <==> HoldsRow(Stored(rows), rec)
  {
    if FindClash(rows, rec).Some? {
      var k := FindClash(rows, rec).value;
      assert SameKey(Stored(rows)[k], rec);
    }
    if HoldsRow(Stored(rows), rec) {
      var i :| 0 <= i < |rows| && SameKey(Stored(rows)[i], rec) && SameRow(Stored(rows)[i], rec);
      assert Clashes(rows[i], rec);
    }
  }

  /** The unique index also knows the clusters. */
  lemma {:induction false} UniqueIndexAfter(w: World, t: Tables, log: seq<Record>, ds: seq<SqlDelivery>, rec: Record)
    requires RowsMatch(w, t.rows, log)
    ensures FindClash(InsertAll(t, ds, w.codec.format).rows, rec).Some? <==> HoldsRow(log + Records(ds), rec)
  {
    if ds == [] {
      assert log + Records(ds) == log;
      ClashIsHeld(w, t.rows, log, rec);
    } else {
      var n := |ds| - 1;
      var was := InsertAll(t, ds[..n], w.codec.format);
      assert log + Records(ds) == (log + Records(ds[..n])) + [ds[n].rec];
      UniqueIndexAfter(w, t, log, ds[..n], rec);
      UniqueIndexAfter(w, t, log, ds[..n], ds[n].rec);
      HoldsSnoc(log + Records(ds[..n]), ds[n].rec, rec);
      UniqueIndexGrows(was, ds[n], w.codec.format, rec);
    }
  }

  lemma {:induction false} UniqueIndexGrows(t: Tables, d: SqlDelivery, format: Time -> string, rec: Record)
    ensures FindClash(InsertOne(t, d, format).rows, rec).Some? <==>
            FindClash(t.rows, rec).Some? || (SameKey(d.rec, rec) && SameRow(d.rec, rec))
  {
    var r := Stamp(d.rec, d.now);
    SameClash(t.rows, r, d.rec);
    if FindClash(t.rows, r).Some? {
      var k := FindClash(t.rows, r).value;
      if SameKey(d.rec, rec) && SameRow(d.rec, rec) { assert Clashes(t.rows[k], rec); }
    } else {
      var t' := InsertOne(t, d, format);
      ClashIsStored(t.rows, rec);
      ClashIsStored(t'.rows, rec);
      assert Stored(t'.rows) == Stored(t.rows) + [Bare(r)];
      HoldsSnoc(Stored(t.rows), Bare(r), rec);
    }
  }

  /** The stores agree exactly when no key of `xs` stands for two rows; otherwise SQLite keeps more
      records than the journal. */
  ghost predicate AgreeIff(w: World, t: Tables, log: seq<Record>, xs: seq<Record>) {
    && (Refines(w, t, log) <==> OneRowPerKey(xs))
    && (!Refines(w, t, log) ==> |t.rows| > |log|)
  }

  lemma NextRefines(w: World, t: Tables, log: seq<Record>, d: SqlDelivery, xs: seq<Record>)
    requires Dates(w) && Stamped(log) && Stamp(d.rec, d.now).observedAt != ZERO_TIME
    requires FindClash(t.rows, d.rec).Some? <==> HoldsRow(xs, d.rec)
    requires IsDuplicate(log, d.rec) <==> Holds(xs, d.rec)
    requires AgreeIff(w, t, log, xs)
    ensures AgreeIff(w, InsertOne(t, d, w.codec.format), Append(log, d.rec, d.now), xs + [d.rec])
  {
    HeldHow(xs, d.rec);
    OneRowSnoc(xs, d.rec);
    SameClash(t.rows, Stamp(d.rec, d.now), d.rec);
    if OneRowPerKey(xs) && !HoldsOther(xs, d.rec) {
      TakenAlike(w, t, log, d);
    } else {
      assert |InsertOne(t, d, w.codec.format).rows| > |Append(log, d.rec, d.now)|;
    }
  }

  /** ANY BATCH, with duplicates inside it or against history, leaves agreeing states agreeing
      exactly when no key of the journal and the batch stands for two rows; otherwise SQLite keeps
      more records than the journal. (A batch that fails changes nothing: `Store.Appends`.) */
  lemma {:induction false} BatchRefines(w: World, t: Tables, log: seq<Record>, ds: seq<SqlDelivery>)
    requires Dates(w) && Stamped(log) && KeysUnique(log) && Refines(w, t, log) && AllStamped(ds)
    ensures AgreeIff(w, InsertAll(t, ds, w.codec.format), Play(log, Handed(ds)), log + Records(ds))
  {
    if ds == [] {
      assert log + Records(ds) == log;
      UniqueKeysOneRow(log);
    } else {
      var n := |ds| - 1;
      var xs := log + Records(ds[..n]);
      assert Handed(ds)[..n] == Handed(ds[..n]);
      assert log + Records(ds) == xs + [ds[n].rec];
      assert AllStamped(ds[..n]) && Stamp(ds[n].rec, ds[n].now).observedAt != ZERO_TIME;
      BatchRefines(w, t, log, ds[..n]);
      IndexAfter(log, ds[..n], ds[n].rec);
      UniqueIndexAfter(w, t, log, ds[..n], ds[n].rec);
      StaysStamped(log, ds[..n]);
      NextRefines(w, InsertAll(t, ds[..n], w.codec.format), Play(log, Handed(ds[..n])), ds[n], xs);
    }
  }

  /** A whole history of batches, each committed or rolled back. */
  datatype Batch = Batch(ds: seq<SqlDelivery>, committed: bool)

  function SqlRun(t: Tables, bs: seq<Batch>, format: Time -> string): Tables {
    if bs == [] then t
    else
      var u, b := SqlRun(t, bs[..|bs| - 1], format), bs[|bs| - 1];
      if b.committed then InsertAll(u, b.ds, format) else u
  }

  function MemoryRun(log: seq<Record>, bs: seq<Batch>): seq<Record> {
    if bs == [] then log
    else
      var l, b := MemoryRun(log, bs[..|bs| - 1]), bs[|bs| - 1];
      if b.committed then Play(l, Handed(b.ds)) else l
  }

  /** The records the committed batches hold, in order. */
  function Committed(bs: seq<Batch>): seq<SqlDelivery> {
    if bs == [] then []
    else Committed(bs[..|bs| - 1]) + if bs[|bs| - 1].committed then bs[|bs| - 1].ds else []
  }

  lemma {:induction false} InsertAllConcat(t: Tables, xs: seq<SqlDelivery>, ys: seq<SqlDelivery>,
                                           format: Time -> string)
    ensures InsertAll(t, xs + ys, format) == InsertAll(InsertAll(t, xs, format), ys, format)
  {
    if ys == [] {
      assert xs + ys == xs;
    } else {
      assert (xs + ys)[..|xs + ys| - 1] == xs + ys[..|ys| - 1];
      InsertAllConcat(t, xs, ys[..|ys| - 1], format);
    }
  }

  lemma {:induction false} PlayConcat(log: seq<Record>, xs: seq<Delivery>, ys: seq<Delivery>)
    ensures Play(log, xs + ys) == Play(Play(log, xs), ys)
  {
    if ys == [] {
      assert xs + ys == xs;
    } else {
      assert (xs + ys)[..|xs + ys| - 1] == xs + ys[..|ys| - 1];
      PlayConcat(log, xs, ys[..|ys| - 1]);
    }
  }

  /** Batch boundaries do not matter. */
  lemma {:induction false} RunIsOneBatch(w: World, t: Tables, log: seq<Record>, bs: seq<Batch>)
    requires forall i :: 0 <= i < |bs| ==> AllStamped(bs[i].ds)
    ensures SqlRun(t, bs, w.codec.format) == InsertAll(t, Committed(bs), w.codec.format)
    ensures MemoryRun(log, bs) == Play(log, Handed(Committed(bs)))
    ensures AllStamped(Committed(bs))
  {
    if bs != [] {
      var init, b := bs[..|bs| - 1], bs[|bs| - 1];
      RunIsOneBatch(w, t, log, init);
      if b.committed {
        OneMoreBatch(t, log, Committed(init), b.ds, w.codec.format);
      } else {
        assert Committed(bs) == Committed(init);
      }
    }
  }

  lemma HandedConcat(xs: seq<SqlDelivery>, ys: seq<SqlDelivery>)
    ensures Handed(xs + ys) == Handed(xs) + Handed(ys)
  {
    var both, split := Handed(xs + ys), Handed(xs) + Handed(ys);
    forall i | 0 <= i < |both| ensures both[i] == split[i] {
      assert (xs + ys)[i] == if i < |xs| then xs[i] else ys[i - |xs|];
    }
    assert |both| == |split|;
  }

  lemma {:induction false} OneMoreBatch(t: Tables, log: seq<Record>, xs: seq<SqlDelivery>, ys: seq<SqlDelivery>,
                                        format: Time -> string)
    ensures InsertAll(t, xs + ys, format) == InsertAll(InsertAll(t, xs, format), ys, format)
    ensures Play(log, Handed(xs + ys)) == Play(Play(log, Handed(xs)), Handed(ys))
  {
    InsertAllConcat(t, xs, ys, format);
    HandedConcat(xs, ys);
    PlayConcat(log, Handed(xs), Handed(ys));
  }

  /** ANY HISTORY of committed and rolled-back batches from the empty stores leaves them agreeing
      exactly when no key of the committed records stands for two rows (with NUL-free stream IDs: no
      event comes from two clusters, `PlainKeys`); otherwise SQLite keeps more records. */
  lemma {:induction false} RunRefines(w: World, bs: seq<Batch>)
    requires Dates(w) && forall i :: 0 <= i < |bs| ==> AllStamped(bs[i].ds)
    ensures Refines(w, SqlRun(Tables([], map[]), bs, w.codec.format), MemoryRun([], bs)) <==>
            OneRowPerKey(Records(Committed(bs)))
    ensures !OneRowPerKey(Records(Committed(bs))) ==>
              |SqlRun(Tables([], map[]), bs, w.codec.format).rows| > |MemoryRun([], bs)|
    ensures Stamped(MemoryRun([], bs))
  {
    RunIsOneBatch(w, Tables([], map[]), [], bs);
    BatchRefines(w, Tables([], map[]), [], Committed(bs));
    StaysStamped([], Committed(bs));
    assert [] + Records(Committed(bs)) == Records(Committed(bs));
  }

  // ---------------------------------------------------------------- reading

  /** A record as SQLite gives it back, its number aside. */
  function Faded(r: Record): Record { r.(ingestSeq := 0, observedAt := Clock.Milli(r.observedAt) * Clock.MILLI) }

  function FadedAll(rs: seq<Record>): seq<Record> {
    if rs == [] then [] else FadedAll(rs[..|rs| - 1]) + [Faded(rs[|rs| - 1])]
  }

  function Unnumbered(rs: seq<Record>): seq<Record> {
    if rs == [] then [] else Unnumbered(rs[..|rs| - 1]) + [rs[|rs| - 1].(ingestSeq := 0)]
  }

  /** The last instant of `t`'s millisecond; the zero time sets no bound. */
  function EndOfMilli(t: Time): Time {
    if t == ZERO_TIME then ZERO_TIME else Clock.Milli(t) * Clock.MILLI + (Clock.MILLI - 1)
  }

  function BoundText(w: World, until: Time): string { if until == ZERO_TIME then "" else w.codec.format(until) }

  predicate InCut(row: Row, s: string, text: string) {
    row.rec.streamId == s && (text == "" || AtMost(row.observedAt, text))
  }

  lemma {:induction false} EventsSnoc(rows: seq<Row>, parse: string -> Time, s: string, text: string)
    requires rows != []
    ensures var n := |rows| - 1;
            EventsUntil(rows, parse, s, text) ==
              if InCut(rows[n], s, text) then EventsUntil(rows[..n], parse, s, text) + [Scan(rows[n], parse)]
              else EventsUntil(rows[..n], parse, s, text)
  {
    var es := EventsUntil(rows[..|rows| - 1], parse, s, text);
    assert es + [] == es;
  }

  lemma StreamCutSnoc(log: seq<Record>, s: string, until: Time)
    requires log != []
    ensures var n := |log| - 1;
            var before := MemoryStore.Cut(ForStream(log[..n], s), until);
            MemoryStore.Cut(ForStream(log, s), until) ==
              if log[n].streamId == s && (until == ZERO_TIME || log[n].observedAt <= until) then before + [log[n]]
              else before
  {
    var n := |log| - 1;
    var ms := ForStream(log[..n], s);
    assert ms + [] == ms;
  }

  ghost predicate ReadsBack(w: World, rows: seq<Row>, log: seq<Record>, s: string, until: Time) {
    Unnumbered(EventsUntil(rows, w.codec.parse, s, BoundText(w, until))) ==
    FadedAll(MemoryStore.Cut(ForStream(log, s), EndOfMilli(until)))
  }

  lemma ReadsBackStep(w: World, rows: seq<Row>, log: seq<Record>, s: string, until: Time, n: nat)
    requires Faithful(w) && |rows| == |log| == n + 1 && (until == ZERO_TIME || w.good(until))
    requires RowMatches(w, rows[n], log[n]) && w.good(log[n].observedAt)
    requires ReadsBack(w, rows[..n], log[..n], s, until)
    ensures ReadsBack(w, rows, log, s, until)
  {
    var es := EventsUntil(rows[..n], w.codec.parse, s, BoundText(w, until));
    var ms := MemoryStore.Cut(ForStream(log[..n], s), EndOfMilli(until));
    var x := Scan(rows[n], w.codec.parse);
    EventsSnoc(rows, w.codec.parse, s, BoundText(w, until));
    StreamCutSnoc(log, s, EndOfMilli(until));
  }

  /** READING BACK: the stored events of a stream up to a time are those the in-memory store
      gives up to the end of that millisecond, in the same order, with their times cut to
      milliseconds. */
  lemma {:induction false} EventsRefine(w: World, rows: seq<Row>, log: seq<Record>, s: string, until: Time)
    requires Faithful(w) && GoodLog(w, log) && RowsMatch(w, rows, log) && (until == ZERO_TIME || w.good(until))
    ensures Unnumbered(EventsUntil(rows, w.codec.parse, s, BoundText(w, until))) ==
            FadedAll(MemoryStore.Cut(ForStream(log, s), EndOfMilli(until)))
    decreases |log|
  {
    if log != [] {
      var n := |log| - 1;
      assert RowMatches(w, rows[n], log[n]) && w.good(log[n].observedAt);
      EventsRefine(w, rows[..n], log[..n], s, until);
      ReadsBackStep(w, rows, log, s, until, n);
    }
  }

  // ---------------------------------------------------------------- reconstructing from either store

  predicate SameFlags(a: Reduction, b: Reduction) {
    a.hasBaseline == b.hasBaseline && a.hasGaps == b.hasGaps && a.gapCount == b.gapCount && a.lastRV == b.lastRV
  }

  /** The same reconstruction, instants aside. */
  ghost predicate SameView(a: Reduction, b: Reduction) {
    && SameFlags(a, b)
    && a.states.Keys == b.states.Keys
    && forall k :: k in a.states ==> a.states[k].(at := ZERO_TIME) == b.states[k].(at := ZERO_TIME)
  }

  lemma SameFlagsStep(a: Reduction, b: Reduction, s: string, x: Record, y: Record)
    requires SameFlags(a, b) && Bare(x) == Bare(y)
    ensures SameFlags(ReduceStep(a, s, x), ReduceStep(b, s, y))
  {
    assert x.rtype == y.rtype && x.watchType == y.watchType && x.payload == y.payload;
    assert x.resource == y.resource && x.checkpoint == y.checkpoint;
  }

  lemma SameViewStep(a: Reduction, b: Reduction, s: string, x: Record, y: Record)
    requires SameView(a, b) && Bare(x) == Bare(y)
    ensures SameView(ReduceStep(a, s, x), ReduceStep(b, s, y))
  {
    SameFlagsStep(a, b, s, x, y);
    StatesStep(a, s, x);
    StatesStep(b, s, y);
  }

  ghost predicate SameButWhen(xs: seq<Record>, ys: seq<Record>) {
    |xs| == |ys| && forall i :: 0 <= i < |xs| ==> Bare(xs[i]) == Bare(ys[i])
  }

  lemma {:induction false} SameButWhenReduces(s: string, xs: seq<Record>, ys: seq<Record>)
    requires SameButWhen(xs, ys)
    ensures SameView(Reduce(s, xs), Reduce(s, ys))
  {
    if xs != [] {
      var n := |xs| - 1;
      SameButWhenReduces(s, xs[..n], ys[..n]);
      SameViewStep(Reduce(s, xs[..n]), Reduce(s, ys[..n]), s, xs[n], ys[n]);
    }
  }

  lemma {:induction false} FadedIsSame(xs: seq<Record>, ys: seq<Record>)
    requires Unnumbered(xs) == FadedAll(ys)
    ensures SameButWhen(xs, ys)
    decreases |xs|
  {
    if xs == [] {
      assert ys == [];
    } else {
      var n, m := |xs| - 1, |ys| - 1;
      var u, f := Unnumbered(xs), FadedAll(ys);
      assert u[..|u| - 1] == Unnumbered(xs[..n]);
      assert ys != [] && f[..|f| - 1] == FadedAll(ys[..m]);
      FadedIsSame(xs[..n], ys[..m]);
      assert u[|u| - 1] == f[|f| - 1];
      assert xs[n].(ingestSeq := 0) == Faded(ys[m]);
    }
  }

  /** The reducer reconstructs the same objects and coverage from either store. */
  lemma {:induction false} SameReconstruction(w: World, rows: seq<Row>, log: seq<Record>, s: string, until: Time)
    requires Faithful(w) && GoodLog(w, log) && RowsMatch(w, rows, log) && (until == ZERO_TIME || w.good(until))
    ensures SameView(Reduce(s, EventsUntil(rows, w.codec.parse, s, BoundText(w, until))),
                     Reduce(s, MemoryStore.Cut(ForStream(log, s), EndOfMilli(until))))
  {
    var xs := EventsUntil(rows, w.codec.parse, s, BoundText(w, until));
    var ys := MemoryStore.Cut(ForStream(log, s), EndOfMilli(until));
    EventsRefine(w, rows, log, s, until);
    FadedIsSame(xs, ys);
    SameButWhenReduces(s, xs, ys);
  }

  // ---------------------------------------------------------------- the program's codec

  function MillisCodec(): Codec { Codec(Formatting(), Parsing()) }

  function Formatting(): Time -> string { t => Clock.FormatTime(t) }

  function Parsing(): string -> Time { s => Clock.ParseTime(s).GetOr(ZERO_TIME) }

  /** After the zero time, in a year of four digits. */
  function Datable(): Time -> bool { t => t > ZERO_TIME && Clock.FourDigitYear(t) }

  /** Only the zero time has the empty text. */
  lemma MillisDate(good: Time -> bool)
    ensures Dates(World(MillisCodec(), good))
  {
    forall a | a != ZERO_TIME ensures Formatting()(a) != "" {
      assert Clock.InstantText(Clock.Milli(a)) != "";
    }
  }

  /** Every row's time is in the years 1001 to 9999. */
  ghost predicate Recent(rows: seq<Row>) {
    forall k :: 0 <= k < |rows| ==> exists t: Time ::
      t != ZERO_TIME && 1001 <= Clock.YearAt(t) <= 9999 && rows[k].observedAt == Clock.FormatTime(t)
  }

  lemma {:induction false} NothingUntil(rows: seq<Row>, parse: string -> Time, s: string, bound: string)
    requires bound != "" && forall k :: 0 <= k < |rows| ==> !AtMost(rows[k].observedAt, bound)
    ensures EventsUntil(rows, parse, s, bound) == []
  {
    if rows != [] { NothingUntil(rows[..|rows| - 1], parse, s, bound); }
  }

  /** A bound that reads as year 10000 selects no such row, though it is later than all of them. */
  lemma {:induction false} FarBoundSelectsNothing(rows: seq<Row>, parse: string -> Time, s: string)
    requires Recent(rows)
    ensures EventsUntil(rows, parse, s, Clock.FormatTime(Clock.FAR_BOUND)) == []
  {
    var bound := Clock.FormatTime(Clock.FAR_BOUND);
    Clock.FarBoundIsYear10000();
    forall k | 0 <= k < |rows| ensures !AtMost(rows[k].observedAt, bound) {
      var t: Time :| t != ZERO_TIME && 1001 <= Clock.YearAt(t) <= 9999 && rows[k].observedAt == Clock.FormatTime(t);
      Clock.FarBoundSortsFirst(t);
      BeforeIsAsymmetric(bound, rows[k].observedAt);
    }
    NothingUntil(rows, parse, s, bound);
  }

  /** The fixed-width timestamps are exact to the millisecond. */
  lemma MillisAreFaithful()
    ensures Faithful(World(MillisCodec(), Datable()))
  {
    forall a | Datable()(a)
      ensures Formatting()(a) != "" && Parsing()(Formatting()(a)) == Clock.Milli(a) * Clock.MILLI
    {
      Clock.ParseOfFormat(a);
    }
    forall a, b | Datable()(a) && Datable()(b)
      ensures (Before(Formatting()(a), Formatting()(b)) <==> Clock.Milli(a) < Clock.Milli(b)) &&
              (Formatting()(a) == Formatting()(b) <==> Clock.Milli(a) == Clock.Milli(b))
    {
      Clock.TimesSort(a, b);
    }
  }

}
