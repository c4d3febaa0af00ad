/** Paging through the SQLite store. */
module SqlPages {
  import opened Seqs
  import opened Events
  import opened MemoryStore
  import Clock
  import opened SqlStore
  import opened SqlRefines
  import opened Pages

  // The database compares times as texts cut to milliseconds, and its numbers may skip. A query of the
  // rows is nevertheless a query of the journal that the rows give back, its bounds moved to the
  // start and the end of their milliseconds; so a walk over pages of the database is complete too.

  // ---------------------------------------------------------------- the bounds of a query

  function StartOfMilli(t: Time): Time { if t == ZERO_TIME then ZERO_TIME else Clock.Milli(t) * Clock.MILLI }

  function Coarse(f: EventFilter): EventFilter {
    f.(since := StartOfMilli(f.since), until := EndOfMilli(f.until))
  }

  predicate GoodFilter(w: World, f: EventFilter) {
    (f.since == ZERO_TIME || w.good(f.since)) && (f.until == ZERO_TIME || w.good(f.until))
  }

  /** The row's time is the text of a good instant. */
  ghost predicate GoodRow(w: World, row: Row) {
    exists t :: w.good(t) && row.observedAt == w.codec.format(t)
  }

  ghost predicate GoodRows(w: World, rows: seq<Row>) { forall k :: 0 <= k < |rows| ==> GoodRow(w, rows[k]) }

  lemma SinceByMilli(since: Time, t: Time)
    requires since > ZERO_TIME && t > ZERO_TIME
    ensures (StartOfMilli(since) != ZERO_TIME ==> t >= StartOfMilli(since)) <==> Clock.Milli(since) <= Clock.Milli(t)
    ensures (StartOfMilli(since) != ZERO_TIME ==> StartOfMilli(t) >= StartOfMilli(since)) <==>
            Clock.Milli(since) <= Clock.Milli(t)
  {
  }

  lemma UntilByMilli(until: Time, t: Time)
    requires until > ZERO_TIME && t > ZERO_TIME
    ensures EndOfMilli(until) != ZERO_TIME
    ensures t <= EndOfMilli(until) <==> Clock.Milli(t) <= Clock.Milli(until)
    ensures StartOfMilli(t) <= EndOfMilli(until) <==> Clock.Milli(t) <= Clock.Milli(until)
  {
  }

  /** A row is chosen exactly when the record it gives back is selected. */
  lemma ChoosesScan(w: World, f: EventFilter, row: Row)
    requires Faithful(w) && GoodFilter(w, f) && GoodRow(w, row)
    ensures Chooses(f, w.codec.format, row) <==> Selected(Scan(row, w.codec.parse), Coarse(f))
  {
    var t :| w.good(t) && row.observedAt == w.codec.format(t);
    if f.since != ZERO_TIME { SinceByMilli(f.since, t); }
    if f.until != ZERO_TIME { UntilByMilli(f.until, t); }
  }

  // ---------------------------------------------------------------- the query

  lemma {:induction false} ScanAt(rows: seq<Row>, parse: string -> Time)
    ensures |ScanAll(rows, parse)| == |rows|
    ensures forall k :: 0 <= k < |rows| ==> ScanAll(rows, parse)[k] == Scan(rows[k], parse)
  {
    if rows != [] { ScanAt(rows[..|rows| - 1], parse); }
  }

  lemma {:induction false} ScanSlice(rows: seq<Row>, parse: string -> Time, offset: int, limit: int)
    ensures ScanAll(Slice(rows, offset, limit), parse) == Slice(ScanAll(rows, parse), offset, limit)
  {
    ScanAt(rows, parse);
    ScanAt(Slice(rows, offset, limit), parse);
  }

  function SelectedBy(f: EventFilter): Record -> bool { r => Selected(r, f) }

  lemma {:induction false} ScanFilter(w: World, f: EventFilter, rows: seq<Row>)
    requires Faithful(w) && GoodFilter(w, f) && GoodRows(w, rows)
    ensures ScanAll(Filter(rows, Chosen(f, w.codec.format)), w.codec.parse) ==
            Filter(ScanAll(rows, w.codec.parse), SelectedBy(Coarse(f)))
  {
    if rows != [] {
      var init, row := rows[..|rows| - 1], rows[|rows| - 1];
      assert init + [row] == rows;
      ScanFilter(w, f, init);
      ChoosesScan(w, f, row);
      FilterSnoc(init, row, Chosen(f, w.codec.format));
      FilterSnoc(ScanAll(init, w.codec.parse), Scan(row, w.codec.parse), SelectedBy(Coarse(f)));
      ScanSnoc(Filter(init, Chosen(f, w.codec.format)), row, w.codec.parse);
    }
  }

  lemma {:induction false} ScanSnoc(rows: seq<Row>, row: Row, parse: string -> Time)
    ensures ScanAll(rows + [row], parse) == ScanAll(rows, parse) + [Scan(row, parse)]
    ensures ScanAll(rows + [], parse) == ScanAll(rows, parse)
  {
    assert (rows + [row])[..|rows|] == rows && rows + [] == rows;
  }

  /** THE QUERY REFINES: the events of the rows are those of the journal the rows give back. */
  lemma {:induction false} EventsInAreEventsOf(w: World, rows: seq<Row>, f: EventFilter)
    requires Faithful(w) && GoodFilter(w, f) && GoodRows(w, rows)
    ensures EventsIn(rows, f, w.codec) == EventsOf(ScanAll(rows, w.codec.parse), Coarse(f))
  {
    var log := ScanAll(rows, w.codec.parse);
    var p: Record -> bool := r => Selected(r, Coarse(f));
    ScanFilter(w, f, rows);
    ScanSlice(Filter(rows, Chosen(f, w.codec.format)), w.codec.parse, f.offset, f.limit);
    FilterAgree(log, SelectedBy(Coarse(f)), p);
    assert EventsOf(log, Coarse(f)) == Slice(Filter(log, p), f.offset, f.limit);
  }

  // ---------------------------------------------------------------- the pages

  function SqlPaging(codec: Codec, f: EventFilter, limit: int): (seq<Row>, int) -> Page
    requires limit > 0
  {
    (rows, c) => PageFrom(EventsIn(rows, PageQuery(f, limit, c), codec), limit)
  }

  lemma {:induction false} SamePage(w: World, rows: seq<Row>, f: EventFilter, limit: int, c: int)
    requires Faithful(w) && GoodFilter(w, f) && GoodRows(w, rows) && limit > 0
    ensures SqlPaging(w.codec, f, limit)(rows, c) == Paging(Coarse(f), limit)(ScanAll(rows, w.codec.parse), c)
  {
    EventsInAreEventsOf(w, rows, PageQuery(f, limit, c));
    assert Coarse(PageQuery(f, limit, c)) == PageQuery(Coarse(f), limit, c);
  }

  /** The journals the databases give back. */
  function Given(dbs: seq<seq<Row>>, parse: string -> Time): seq<seq<Record>> {
    seq(|dbs|, i requires 0 <= i < |dbs| => ScanAll(dbs[i], parse))
  }

  ghost predicate AllGood(w: World, dbs: seq<seq<Row>>) { forall i :: 0 <= i < |dbs| ==> GoodRows(w, dbs[i]) }

  lemma {:induction false} SameWalk(w: World, dbs: seq<seq<Row>>, f: EventFilter, limit: int, c: int)
    requires Faithful(w) && GoodFilter(w, f) && AllGood(w, dbs) && limit > 0
    ensures var sql, mem := SqlPaging(w.codec, f, limit), Paging(Coarse(f), limit);
            && Walk(dbs, sql, c) == Walk(Given(dbs, w.codec.parse), mem, c)
            && (Ends(dbs, sql, c) <==> Ends(Given(dbs, w.codec.parse), mem, c))
    decreases |dbs|
  {
    if dbs != [] {
      var p := SqlPaging(w.codec, f, limit)(dbs[0], c);
      SamePage(w, dbs[0], f, limit, c);
      assert Given(dbs, w.codec.parse)[1..] == Given(dbs[1..], w.codec.parse);
      SameWalk(w, dbs[1..], f, limit, CursorOf(p.nextCursor).GetOr(0));
    }
  }

  // ---------------------------------------------------------------- the walk

  /** One database as time goes by, its numbers within 64 bits. */
  ghost predicate GrowingRows(dbs: seq<seq<Row>>) {
    && (forall i :: 0 <= i < |dbs| ==> IdsGrow(dbs[i]) && LastId(dbs[i]) < 0x8000_0000_0000_0000)
    && (forall i, j :: 0 <= i < j < |dbs| ==> dbs[i] <= dbs[j])
  }

  lemma {:induction false} IdsAscend(rows: seq<Row>, parse: string -> Time)
    requires IdsGrow(rows)
    ensures Ascending(ScanAll(rows, parse)) && LastSeq(ScanAll(rows, parse)) == LastId(rows)
  {
    ScanAt(rows, parse);
  }

  lemma {:induction false} ScanPrefix(rows: seq<Row>, rows': seq<Row>, parse: string -> Time)
    requires rows <= rows'
    ensures ScanAll(rows, parse) <= ScanAll(rows', parse)
  {
    ScanAt(rows, parse);
    ScanAt(rows', parse);
  }

  lemma {:induction false} GivenGrow(dbs: seq<seq<Row>>, parse: string -> Time)
    requires GrowingRows(dbs)
    ensures Growing(Given(dbs, parse))
  {
    var logs := Given(dbs, parse);
    forall i | 0 <= i < |logs| ensures Fits(logs[i]) { IdsAscend(dbs[i], parse); }
    forall i, j | 0 <= i < j < |logs| ensures logs[i] <= logs[j] { ScanPrefix(dbs[i], dbs[j], parse); }
  }

  /** CURSOR WALK COMPLETENESS, over SQLite: whatever is written between the pages, a walk that ends
      has collected exactly the matching records of the last database read, in order, with no
      skip and no repeat. */
  lemma {:induction false} SqlWalkIsComplete(w: World, dbs: seq<seq<Row>>, f: EventFilter, limit: int)
    requires Faithful(w) && GoodFilter(w, f) && AllGood(w, dbs) && GrowingRows(dbs) && limit > 0
    requires Ends(dbs, SqlPaging(w.codec, f, limit), 0)
    ensures Walk(dbs, SqlPaging(w.codec, f, limit), 0) ==
            Filter(ScanAll(dbs[|dbs| - 1], w.codec.parse), Matching(Coarse(f)))
  {
    SameWalk(w, dbs, f, limit, 0);
    GivenGrow(dbs, w.codec.parse);
    WalkIsComplete(Given(dbs, w.codec.parse), Coarse(f), limit);
  }

  // ---------------------------------------------------------------- against the journal

  lemma {:induction false} MatchingByMilli(w: World, f: EventFilter, row: Row, r: Record)
    requires Faithful(w) && GoodFilter(w, f) && RowMatches(w, row, r) && w.good(r.observedAt)
    ensures Matches(Scan(row, w.codec.parse), Coarse(f)) <==> Matches(r, Coarse(f))
    ensures Scan(row, w.codec.parse).(ingestSeq := 0) == Faded(r)
  {
    if f.since != ZERO_TIME { SinceByMilli(f.since, r.observedAt); }
    if f.until != ZERO_TIME { UntilByMilli(f.until, r.observedAt); }
  }

  ghost predicate AlikeUpToMilli(f: EventFilter, given: seq<Record>, log: seq<Record>) {
    Unnumbered(Filter(given, Matching(f))) == FadedAll(Filter(log, Matching(f)))
  }

  lemma {:induction false} NextAlike(f: EventFilter, given: seq<Record>, x: Record, log: seq<Record>, r: Record)
    requires AlikeUpToMilli(f, given, log) && x.(ingestSeq := 0) == Faded(r) && (Matches(x, f) <==> Matches(r, f))
    ensures AlikeUpToMilli(f, given + [x], log + [r])
  {
    var xs, rs := Filter(given, Matching(f)), Filter(log, Matching(f));
    FilterSnoc(given, x, Matching(f));
    FilterSnoc(log, r, Matching(f));
    UnnumberedSnoc(xs, x);
    FadedSnoc(rs, r);
    assert xs + [] == xs && rs + [] == rs;
  }

  lemma {:induction false} SameMatching(w: World, rows: seq<Row>, log: seq<Record>, f: EventFilter)
    requires Faithful(w) && GoodFilter(w, f) && GoodLog(w, log) && RowsMatch(w, rows, log)
    ensures AlikeUpToMilli(Coarse(f), ScanAll(rows, w.codec.parse), log)
    decreases |log|
  {
    if log != [] {
      var n := |log| - 1;
      assert RowMatches(w, rows[n], log[n]) && w.good(log[n].observedAt);
      SameMatching(w, rows[..n], log[..n], f);
      MatchingByMilli(w, f, rows[n], log[n]);
      NextAlike(Coarse(f), ScanAll(rows[..n], w.codec.parse), Scan(rows[n], w.codec.parse), log[..n], log[n]);
      assert log == log[..n] + [log[n]];
    }
  }

  lemma {:induction false} UnnumberedSnoc(xs: seq<Record>, x: Record)
    ensures Unnumbered(xs + [x]) == Unnumbered(xs) + [x.(ingestSeq := 0)]
  {
    assert (xs + [x])[..|xs|] == xs;
  }

  lemma {:induction false} FadedSnoc(xs: seq<Record>, x: Record)
    ensures FadedAll(xs + [x]) == FadedAll(xs) + [Faded(x)]
  {
    assert (xs + [x])[..|xs|] == xs;
  }

  lemma EarlierRowsAreGood(w: World, dbs: seq<seq<Row>>, log: seq<Record>)
    requires dbs != [] && GrowingRows(dbs) && GoodLog(w, log) && RowsMatch(w, dbs[|dbs| - 1], log)
    ensures AllGood(w, dbs)
  {
    var last := dbs[|dbs| - 1];
    forall i, k | 0 <= i < |dbs| && 0 <= k < |dbs[i]| ensures GoodRow(w, dbs[i][k]) {
      assert dbs[i] <= last;
      assert dbs[i][k] == last[k] && RowMatches(w, last[k], log[k]) && w.good(log[k].observedAt);
    }
  }

  /** So the walk collects the journal's matching records, their times cut to milliseconds. */
  lemma {:induction false} SqlWalkCollectsJournal(w: World, dbs: seq<seq<Row>>, log: seq<Record>, f: EventFilter,
                                                  limit: int)
    requires Faithful(w) && GoodFilter(w, f) && GrowingRows(dbs) && limit > 0
    requires Ends(dbs, SqlPaging(w.codec, f, limit), 0)
    requires GoodLog(w, log) && RowsMatch(w, dbs[|dbs| - 1], log)
    ensures Unnumbered(Walk(dbs, SqlPaging(w.codec, f, limit), 0)) == FadedAll(Filter(log, Matching(Coarse(f))))
  {
    EarlierRowsAreGood(w, dbs, log);
    SqlWalkIsComplete(w, dbs, f, limit);
    SameMatching(w, dbs[|dbs| - 1], log, f);
  }
}
