/** The SQLite journal store (internal/storage/sqlite.go), its tables, transactions and
    text-compared times. */
module SqlStore {
  import opened Text
  import opened Seqs
  import opened Events
  import opened Journal
  import opened MemoryStore

  /** How instants are written and read (`formatTime`, `parseTime`; see Clock). */
  datatype Codec = Codec(format: Time -> string, parse: string -> Time)

  // ---------------------------------------------------------------- the tables

  /** A row of `records`: the record without its time and number, which have columns. */
  datatype Row = Row(id: int, observedAt: string, rec: Record)

  /** A row of `streams`. */
  datatype MetaRow = MetaRow(
    clusterId: string, available: bool, first: string, last: string, lastRV: string, gapCount: nat, degraded: bool)

  datatype Tables = Tables(rows: seq<Row>, metas: map<string, MetaRow>)

  function Bare(r: Record): Record { r.(observedAt := ZERO_TIME, ingestSeq := 0) }

  function LastId(rows: seq<Row>): int { if rows == [] then 0 else rows[|rows| - 1].id }

  /** The unique index over (cluster_id, stream_id, event_id) where event_id is not empty. */
  predicate Clashes(row: Row, rec: Record) {
    && rec.eventId != "" && row.rec.eventId == rec.eventId
    && row.rec.clusterId == rec.clusterId && row.rec.streamId == rec.streamId
  }

  /** The row the index holds for `rec`. */
  function FindClash(rows: seq<Row>, rec: Record): (r: Option<nat>)
    ensures r.Some? ==> r.value < |rows| && Clashes(rows[r.value], rec)
    ensures r.None? ==> forall k :: 0 <= k < |rows| ==> !Clashes(rows[k], rec)
  {
    if rows == [] then None
    else if Clashes(rows[|rows| - 1], rec) then Some(|rows| - 1)
    else FindClash(rows[..|rows| - 1], rec)
  }

  /** The stream's row, if any, with its observation times advanced. */
  function ObserveRow(prev: Option<MetaRow>, rec: Record, observedAt: string): MetaRow {
    var m := prev.GetOr(MetaRow("", false, "", "", "", 0, false));
    m.(clusterId := rec.clusterId,
       first := if m.first == "" then observedAt else m.first,
       last := if m.last == "" || Before(m.last, observedAt) then observedAt else m.last)
  }

  /** What the type of the record does to the row. */
  function ClassifyRow(t: MetaRow, rec: Record): MetaRow {
    var rv := rec.resource.resourceVersion;
    match rec.rtype
    case Gap => t.(gapCount := t.gapCount + 1, degraded := true)
    case Baseline => t.(available := true, degraded := false, lastRV := if rv != "" then rv else t.lastRV)
    case CoverageChange =>
      if rec.coverage.Some?
      then t.(available := rec.coverage.value, degraded := !rec.coverage.value) else t
    case Checkpoint => if rec.checkpoint.Some? then t.(lastRV := rec.checkpoint.value) else t
    case Event => if rv != "" then t.(lastRV := rv) else t
    case _ => t
  }

  /** `upsertMeta`. */
  function UpsertMeta(prev: Option<MetaRow>, rec: Record, observedAt: string): MetaRow {
    ClassifyRow(ObserveRow(prev, rec, observedAt), rec)
  }

  function MetaAt(t: Tables, s: string): Option<MetaRow> { if s in t.metas then Some(t.metas[s]) else None }

  /** One record; a new row's number is above all earlier ones, by how much is up to SQLite. */
  function Insert(t: Tables, rec: Record, at: string, skip: nat): Tables {
    if FindClash(t.rows, rec).Some? then t
    else
      Tables(t.rows + [Row(LastId(t.rows) + 1 + skip, at, Bare(rec))],
             if rec.streamId == "" then t.metas
             else t.metas[rec.streamId := UpsertMeta(MetaAt(t, rec.streamId), rec, at)])
  }

  function NumberOf(t: Tables, rec: Record, skip: nat): int {
    match FindClash(t.rows, rec) case Some(k) => t.rows[k].id case None => LastId(t.rows) + 1 + skip
  }

  /** Where the database fails a record, if it does. */
  datatype Fault = NoFault | BeforeInsert | AfterInsert

  predicate Faultless(ds: seq<SqlDelivery>) { forall i :: 0 <= i < |ds| ==> ds[i].fault == NoFault }

  lemma FaultlessNext(ds: seq<SqlDelivery>, i: nat)
    requires i < |ds|
    ensures Faultless(ds[..i + 1]) <==> Faultless(ds[..i]) && ds[i].fault == NoFault
    ensures ds[i].fault != NoFault ==> !Faultless(ds)
  {
    assert ds[..i + 1] == ds[..i] + [ds[i]];
  }

  /** A record handed to the store, with the clock and the database's part in it. */
  datatype SqlDelivery = SqlDelivery(rec: Record, now: Time, skip: nat, fault: Fault)

  function InsertOne(t: Tables, d: SqlDelivery, format: Time -> string): Tables {
    var rec := Stamp(d.rec, d.now);
    Insert(t, rec, format(rec.observedAt), d.skip)
  }

  function InsertAll(t: Tables, ds: seq<SqlDelivery>, format: Time -> string): Tables {
    if ds == [] then t else InsertOne(InsertAll(t, ds[..|ds| - 1], format), ds[|ds| - 1], format)
  }

  /** The numbers answered, one for each record. */
  function NumbersOf(t: Tables, ds: seq<SqlDelivery>, format: Time -> string): (ns: seq<int>)
    ensures |ns| == |ds|
  {
    if ds == [] then []
    else
      var init, d := ds[..|ds| - 1], ds[|ds| - 1];
      NumbersOf(t, init, format) + [NumberOf(InsertAll(t, init, format), d.rec, d.skip)]
  }

  lemma {:induction false} NextInsert(t: Tables, ds: seq<SqlDelivery>, format: Time -> string, i: nat)
    requires i < |ds|
    ensures InsertAll(t, ds[..i + 1], format) == InsertOne(InsertAll(t, ds[..i], format), ds[i], format)
    ensures NumbersOf(t, ds[..i + 1], format) ==
            NumbersOf(t, ds[..i], format) + [NumberOf(InsertAll(t, ds[..i], format), ds[i].rec, ds[i].skip)]
  {
    assert ds[..i + 1][..i] == ds[..i];
  }

  // ---------------------------------------------------------------- the store

  class Store {
    const codec: Codec
    var tables: Tables

    constructor (codec: Codec)
      ensures this.codec == codec && tables == Tables([], map[])
    {
      this.codec := codec;
      tables := Tables([], map[]);
    }

    /** `appendRecord`, inside a transaction: a fault may leave the row without its meta. */
    method AppendRecord(d: SqlDelivery) returns (number: Option<int>)
      modifies this
      ensures number.Some? <==> d.fault == NoFault
      ensures number.Some? ==> tables == InsertOne(old(tables), d, codec.format)
                               && number.value == NumberOf(old(tables), d.rec, d.skip)
    {
      var rec := Stamp(d.rec, d.now);
      var observedAt := codec.format(rec.observedAt);
      SameClash(tables.rows, d.rec, rec);
      if d.fault == BeforeInsert { return None; }
      var clash := FindClash(tables.rows, rec);
      if clash.None? {
        var id := LastId(tables.rows) + 1 + d.skip;
        var prev := MetaAt(tables, rec.streamId);
        tables := tables.(rows := tables.rows + [Row(id, observedAt, Bare(rec))]);
        if d.fault == AfterInsert { return None; }
        if rec.streamId != "" {
          tables := tables.(metas := tables.metas[rec.streamId := UpsertMeta(prev, rec, observedAt)]);
        }
        return Some(id);
      }
      if d.fault == AfterInsert { return None; }
      return Some(tables.rows[clash.value].id);
    }

    /** The loop of `Appends`, stopping at the first failure. */
    method AppendEach(ds: seq<SqlDelivery>) returns (numbers: Option<seq<int>>)
      modifies this
      ensures numbers.Some? <==> Faultless(ds)
      ensures numbers.Some? ==> tables == InsertAll(old(tables), ds, codec.format)
      ensures numbers.Some? ==> numbers.value == NumbersOf(old(tables), ds, codec.format)
    {
      var seqs: seq<int> := [];
      ghost var saved, so := tables, tables;
      for i := 0 to |ds|
        invariant tables == so
        invariant so == InsertAll(saved, ds[..i], codec.format)
        invariant seqs == NumbersOf(saved, ds[..i], codec.format)
        invariant Faultless(ds[..i])
      {
        var d := ds[i];
        NextInsert(saved, ds, codec.format, i);
        so := InsertOne(so, d, codec.format);
        var number := AppendRecord(d);
        FaultlessNext(ds, i);
        if number.None? { return None; }
        seqs := seqs + [number.value];
      }
      assert ds[..|ds|] == ds;
      return Some(seqs);
    }

    /** `Appends`: one transaction, rolled back on any failure. */
    method Appends(ds: seq<SqlDelivery>, begins: bool, commits: bool) returns (numbers: Option<seq<int>>)
      modifies this
      ensures numbers.Some? <==> begins && commits && Faultless(ds)
      ensures numbers.None? ==> tables == old(tables)
      ensures numbers.Some? ==> tables == InsertAll(old(tables), ds, codec.format)
                                && numbers.value == NumbersOf(old(tables), ds, codec.format)
    {
      if !begins { return None; }
      var saved := tables;
      numbers := AppendEach(ds);
      if numbers.None? || !commits {
        tables := saved;
        return None;
      }
    }

    /** `StreamEvents`. */
    method StreamEvents(streamId: string, until: Time) returns (out: seq<Record>)
      ensures out == EventsUntil(tables.rows, codec.parse, streamId,
                                 if until == ZERO_TIME then "" else codec.format(until))
    {
      out := [];
      var text := if until == ZERO_TIME then "" else codec.format(until);
      for k := 0 to |tables.rows|
        invariant out == EventsUntil(tables.rows[..k], codec.parse, streamId, text)
      {
        assert tables.rows[..k + 1][..k] == tables.rows[..k];
        var row := tables.rows[k];
        if row.rec.streamId == streamId && (text == "" || AtMost(row.observedAt, text)) {
          out := out + [Scan(row, codec.parse)];
        }
      }
      assert tables.rows[..|tables.rows|] == tables.rows;
    }

    /** `Events`: the query, and the loop that reads its rows. */
    method Events(f: EventFilter) returns (out: seq<Record>)
      ensures out == EventsIn(tables.rows, f, codec)
    {
      var rows := Slice(Filter(tables.rows, Chosen(f, codec.format)), f.offset, f.limit);
      out := [];
      for k := 0 to |rows|
        invariant out == ScanAll(rows[..k], codec.parse)
      {
        assert rows[..k + 1][..k] == rows[..k];
        out := out + [Scan(rows[k], codec.parse)];
      }
      assert rows[..|rows|] == rows;
    }
  }

  lemma {:induction false} SameClash(rows: seq<Row>, r: Record, s: Record)
    requires r.eventId == s.eventId && r.clusterId == s.clusterId && r.streamId == s.streamId
    ensures FindClash(rows, r) == FindClash(rows, s)
  {
    if rows != [] { SameClash(rows[..|rows| - 1], r, s); }
  }

  /** `scanRecord`. */
  function Scan(row: Row, parse: string -> Time): Record {
    row.rec.(ingestSeq := row.id, observedAt := parse(row.observedAt))
  }

  /** The rows the query selects, by number; an empty text sets no bound. */
  function EventsUntil(rows: seq<Row>, parse: string -> Time, streamId: string, until: string): seq<Record> {
    if rows == [] then []
    else
      var row := rows[|rows| - 1];
      EventsUntil(rows[..|rows| - 1], parse, streamId, until) +
      if row.rec.streamId == streamId && (until == "" || AtMost(row.observedAt, until)) then [Scan(row, parse)] else []
  }

  function ScanAll(rows: seq<Row>, parse: string -> Time): seq<Record> {
    if rows == [] then [] else ScanAll(rows[..|rows| - 1], parse) + [Scan(rows[|rows| - 1], parse)]
  }

  /** The WHERE clause of `Events`; times are compared as texts. */
  predicate Chooses(f: EventFilter, format: Time -> string, row: Row) {
    && (f.clusterId != "" ==> row.rec.clusterId == f.clusterId)
    && (f.streamId != "" ==> row.rec.streamId == f.streamId)
    && (f.rtype.Some? ==> row.rec.rtype == f.rtype.value)
    && (f.namespace != "" ==> row.rec.resource.namespace == f.namespace)
    && (f.name != "" ==> row.rec.resource.name == f.name)
    && (f.kind != "" ==> row.rec.resource.kind == f.kind)
    && (f.since != ZERO_TIME ==> AtMost(format(f.since), row.observedAt))
    && (f.until != ZERO_TIME ==> AtMost(row.observedAt, format(f.until)))
    && (f.sinceSeq > 0 ==> row.id > f.sinceSeq)
  }

  function Chosen(f: EventFilter, format: Time -> string): Row -> bool { row => Chooses(f, format, row) }

  /** `Events`: the chosen rows by number, cut to the page. */
  function EventsIn(rows: seq<Row>, f: EventFilter, codec: Codec): seq<Record> {
    ScanAll(Slice(Filter(rows, Chosen(f, codec.format)), f.offset, f.limit), codec.parse)
  }
}
