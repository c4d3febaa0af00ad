/** Paging through events with a cursor (internal/api/server.go). */
module Pages {
  import opened Text
  import opened Seqs
  import opened Events
  import opened Journal
  import opened MemoryStore
  import opened Watch

  const DEFAULT_LIMIT: int := 100
  const MAX_EVENT_LIMIT: int := 1000

  /** `encodeCursor`, `decodeCursor`, without the base64 wrapping. */
  function EncodeCursor(n: int): string { DecInt(n) }

  function DecodeCursor(c: string): Option<int> { ParseInt(c) }

  /** The number of a stored record survives the trip through a cursor. */
  lemma CursorRoundTrip(n: nat)
    requires n < 0x8000_0000_0000_0000
    ensures EncodeCursor(n) != "" && DecodeCursor(EncodeCursor(n)) == Some(n)
  {
    ValueOfDec(n);
    assert IsDigit(Dec(n)[0]);
  }

  /** The page size a request asks for; `None` is a bad request. */
  function LimitOf(text: string): (r: Option<int>)
    ensures r.Some? ==> 1 <= r.value <= MAX_EVENT_LIMIT
  {
    if text == "" then Some(DEFAULT_LIMIT)
    else match ParseInt(text)
      case None => None
      case Some(n) => if n <= 0 then None else if n < MAX_EVENT_LIMIT then Some(n) else Some(MAX_EVENT_LIMIT)
  }

  /** A number from 1 to 1000 is taken as it is, a larger one as 1000; no text is 100. */
  lemma LimitMeaning(text: string, n: int)
    ensures LimitOf(text) == Some(n) <==>
              || (text == "" && n == 100)
              || (Denotes(text, n) && 1 <= n <= 1000)
              || (n == 1000 && exists v :: Denotes(text, v) && v > 1000)
  {
    forall v ensures ParseInt(text) == Some(v) <==> Denotes(text, v) { ParsesWhatDenotes(text, v); }
  }

  function CursorOf(text: string): Option<int> { if text == "" then Some(0) else DecodeCursor(text) }

  /** The cursor of a request: an integer, or none for the start. */
  lemma CursorMeaning(text: string, c: int)
    ensures CursorOf(text) == Some(c) <==> (text == "" && c == 0) || Denotes(text, c)
  {
    ParsesWhatDenotes(text, c);
  }

  datatype Page = Page(items: seq<Record>, hasMore: bool, nextCursor: string)

  datatype Parameter = Limit | Since | Until | Cursor

  datatype Response = Ok(page: Page) | BadRequest(parameter: Parameter)

  /** The readers of Go's time package: durations in nanoseconds, and timestamps. */
  datatype TimeReader = TimeReader(duration: string -> Option<int>, timestamp: string -> Option<Time>)

  predicate SaysNow(s: string) { |s| == 3 && s[0] in "nN" && s[1] in "oO" && s[2] in "wW" }

  predicate Reads(text: string, reader: TimeReader) {
    text == "" || SaysNow(text) || reader.duration(text).Some? || reader.timestamp(text).Some?
  }

  /** `parseTimeParam`: no bound, now, some time ago, or a timestamp. */
  function TimeOf(text: string, reader: TimeReader, now: Time): (r: Option<Time>)
    ensures r.Some? <==> Reads(text, reader)
  {
    if text == "" then Some(ZERO_TIME)
    else if SaysNow(text) then Some(now)
    else if reader.duration(text).Some? then Some(now - reader.duration(text).value)
    else reader.timestamp(text)
  }

  /** The texts a request gives. */
  datatype Query = Query(limit: string, since: string, until: string, cursor: string)

  /** The first parameter of a request that does not read. */
  function BadParameter(q: Query, reader: TimeReader): Option<Parameter> {
    if LimitOf(q.limit).None? then Some(Limit)
    else if !Reads(q.since, reader) then Some(Since)
    else if !Reads(q.until, reader) then Some(Until)
    else if CursorOf(q.cursor).None? then Some(Cursor)
    else None
  }

  /** One page more than asked for tells whether there are more. */
  function PageQuery(f: EventFilter, limit: int, cursor: int): EventFilter {
    f.(limit := limit + 1, offset := 0, sinceSeq := cursor)
  }

  /** The page that the answer to `PageQuery` makes. */
  function PageFrom(recs: seq<Record>, limit: int): Page
    requires limit > 0
  {
    if |recs| > limit then Page(recs[..limit], true, EncodeCursor(recs[limit - 1].ingestSeq)) else Page(recs, false, "")
  }

  function PageOf(log: seq<Record>, f: EventFilter, limit: int, cursor: int): Page
    requires limit > 0
  {
    PageFrom(EventsOf(log, PageQuery(f, limit, cursor)), limit)
  }

  // ---------------------------------------------------------------- what a request asks for

  predicate IsNow(s: string) {
    || s == "now" || s == "Now" || s == "nOw" || s == "noW" || s == "NOw" || s == "NoW" || s == "nOW" || s == "NOW"
  }

  lemma NowIsSaid(s: string)
    ensures SaysNow(s) <==> IsNow(s)
  {
    if SaysNow(s) { assert s == [s[0], s[1], s[2]]; }
  }

  /** The instant a text stands for: now, a duration before now, or a timestamp. */
  ghost predicate StandsFor(text: string, reader: TimeReader, now: Time, t: Time) {
    || (IsNow(text) && t == now)
    || (text != "" && !IsNow(text) && reader.duration(text).Some? && t == now - reader.duration(text).value)
    || (text != "" && !IsNow(text) && reader.duration(text).None? && reader.timestamp(text) == Some(t))
  }

  /** The record passes the filter, and was observed within the times the texts stand for. A text
      that stands for the zero time is no bound, and neither is no text. */
  ghost predicate Asked(f: EventFilter, q: Query, reader: TimeReader, sinceNow: Time, untilNow: Time, r: Record) {
    && (f.clusterId == "" || r.clusterId == f.clusterId) && (f.streamId == "" || r.streamId == f.streamId)
    && (f.namespace == "" || r.resource.namespace == f.namespace) && (f.name == "" || r.resource.name == f.name)
    && (f.kind == "" || r.resource.kind == f.kind) && (f.rtype.None? || r.rtype == f.rtype.value)
    && (forall t :: StandsFor(q.since, reader, sinceNow, t) && t != 0 ==> t <= r.observedAt)
    && (forall t :: StandsFor(q.until, reader, untilNow, t) && t != 0 ==> r.observedAt <= t)
  }

  /** The page holds the first `limit` records of the journal asked for after the cursor. */
  ghost predicate Answers(p: Page, log: seq<Record>, asked: Record -> bool, limit: int, cursor: int)
    requires limit > 0
  {
    var all := Filter(log, r => asked(r) && (cursor <= 0 || r.ingestSeq > cursor));
    && p.hasMore == (|all| > limit)
    && p.items == (if |all| > limit then all[..limit] else all)
    && p.nextCursor == (if |all| > limit then DecInt(all[limit - 1].ingestSeq) else "")
  }

  lemma TimeMeaning(text: string, reader: TimeReader, now: Time)
    requires Reads(text, reader)
    ensures var t := TimeOf(text, reader, now).value;
            if text == "" then t == 0 && forall u :: !StandsFor(text, reader, now, u)
            else forall u :: StandsFor(text, reader, now, u) <==> u == t
  {
    NowIsSaid(text);
  }

  lemma AskedMeaning(f: EventFilter, q: Query, reader: TimeReader, sinceNow: Time, untilNow: Time, g: EventFilter,
                     r: Record)
    requires Reads(q.since, reader) && Reads(q.until, reader)
    requires g == f.(since := TimeOf(q.since, reader, sinceNow).value, until := TimeOf(q.until, reader, untilNow).value)
    ensures Matches(r, g) <==> Asked(f, q, reader, sinceNow, untilNow, r)
  {
    TimeMeaning(q.since, reader, sinceNow);
    TimeMeaning(q.until, reader, untilNow);
    assert q.since != "" ==> StandsFor(q.since, reader, sinceNow, g.since);
    assert q.until != "" ==> StandsFor(q.until, reader, untilNow, g.until);
  }

  lemma {:induction false} PageAnswers(log: seq<Record>, g: EventFilter, limit: int, cursor: int, asked: Record -> bool)
    requires limit > 0 && forall r :: Matches(r, g) <==> asked(r)
    ensures Answers(PageOf(log, g, limit, cursor), log, asked, limit, cursor)
  {
    var h := PageQuery(g, limit, cursor);
    var p: Record -> bool, w: Record -> bool :=
      r => Selected(r, h), r => asked(r) && (cursor <= 0 || r.ingestSeq > cursor);
    forall r | r in log ensures p(r) == w(r) { assert Matches(r, h) <==> Matches(r, g); }
    FilterAgree(log, p, w);
    assert EventsOf(log, h) == Slice(Filter(log, p), 0, limit + 1);
  }

  lemma RequestAnswers(log: seq<Record>, f: EventFilter, q: Query, reader: TimeReader, sinceNow: Time, untilNow: Time,
                       g: EventFilter, limit: int, cursor: int)
    requires limit > 0 && Reads(q.since, reader) && Reads(q.until, reader)
    requires g == f.(since := TimeOf(q.since, reader, sinceNow).value, until := TimeOf(q.until, reader, untilNow).value)
    ensures Answers(PageOf(log, g, limit, cursor), log, r => Asked(f, q, reader, sinceNow, untilNow, r), limit, cursor)
  {
    forall r ensures Matches(r, g) <==> Asked(f, q, reader, sinceNow, untilNow, r) {
      AskedMeaning(f, q, reader, sinceNow, untilNow, g, r);
    }
    PageAnswers(log, g, limit, cursor, r => Asked(f, q, reader, sinceNow, untilNow, r));
  }

  /** DURATIONS ARE AGO: a record shown was observed no longer ago than `since` says and no less
      long ago than `until` says, and a page without more has all that were, after its cursor. */
  lemma DurationsAreAgo(p: Page, log: seq<Record>, f: EventFilter, q: Query, reader: TimeReader, sinceNow: Time,
                        untilNow: Time, limit: int, cursor: int, d: int, e: int)
    requires limit > 0 && Answers(p, log, r => Asked(f, q, reader, sinceNow, untilNow, r), limit, cursor)
    requires q.since != "" && !IsNow(q.since) && reader.duration(q.since) == Some(d) && sinceNow - d != 0
    requires q.until != "" && !IsNow(q.until) && reader.duration(q.until) == Some(e) && untilNow - e != 0
    ensures forall r :: r in p.items ==> r in log && sinceNow - d <= r.observedAt <= untilNow - e
    ensures f == NO_FILTER && !p.hasMore ==>
              forall r :: r in log && sinceNow - d <= r.observedAt <= untilNow - e && r.ingestSeq > cursor ==>
                r in p.items
  {
    var asked: Record -> bool := r => Asked(f, q, reader, sinceNow, untilNow, r);
    var wanted: Record -> bool := r => asked(r) && (cursor <= 0 || r.ingestSeq > cursor);
    assert StandsFor(q.since, reader, sinceNow, sinceNow - d) && StandsFor(q.until, reader, untilNow, untilNow - e);
    forall r | r in p.items ensures r in log && sinceNow - d <= r.observedAt <= untilNow - e {
      FilterMembers(log, wanted, r);
    }
    forall r | r in log && sinceNow - d <= r.observedAt <= untilNow - e && r.ingestSeq > cursor &&
               f == NO_FILTER && !p.hasMore
      ensures r in p.items
    {
      FilterMembers(log, wanted, r);
    }
  }

  const NO_FILTER: EventFilter := EventFilter("", "", "", "", "", None, 0, 0, 0, 0, 0)

  /** The rest of `handleEvents`, once its parameters are read. */
  method FetchPage(store: Store, f: EventFilter, limit: int, cursor: int) returns (page: Page)
    requires store.Valid() && limit > 0
    ensures page == PageOf(store.log, f, limit, cursor)
  {
    var recs := store.Events(f.(limit := limit + 1, offset := 0, sinceSeq := cursor));
    var hasMore := |recs| > limit;
    if hasMore { recs := recs[..limit]; }
    var next := "";
    if hasMore && |recs| > 0 { next := EncodeCursor(recs[|recs| - 1].ingestSeq); }
    page := Page(recs, hasMore, next);
  }

  /** `handleEvents`; the times, limit and offset of `f` are set here. The clock is read once for
      each relative time. */
  method HandleEvents(store: Store, f: EventFilter, q: Query, reader: TimeReader, sinceNow: Time, untilNow: Time)
    returns (r: Response)
    requires store.Valid()
    ensures r.BadRequest? <==> BadParameter(q, reader).Some?
    ensures r.BadRequest? ==> Some(r.parameter) == BadParameter(q, reader)
    ensures r.Ok? ==>
              && LimitOf(q.limit).Some? && CursorOf(q.cursor).Some?
              && Reads(q.since, reader) && Reads(q.until, reader)
              && var bounded := f.(since := TimeOf(q.since, reader, sinceNow).value,
                                   until := TimeOf(q.until, reader, untilNow).value);
                 r.page == PageOf(store.log, bounded, LimitOf(q.limit).value, CursorOf(q.cursor).value)
    ensures r.Ok? ==>
              Answers(r.page, store.log, r => Asked(f, q, reader, sinceNow, untilNow, r), LimitOf(q.limit).value,
                      CursorOf(q.cursor).value)
  {
    var limit := LimitOf(q.limit);
    if limit.None? { return BadRequest(Limit); }
    var since := TimeOf(q.since, reader, sinceNow);
    if since.None? { return BadRequest(Since); }
    var until := TimeOf(q.until, reader, untilNow);
    if until.None? { return BadRequest(Until); }
    var cursor := CursorOf(q.cursor);
    if cursor.None? { return BadRequest(Cursor); }
    var bounded := f.(since := since.value, until := until.value);
    RequestAnswers(store.log, f, q, reader, sinceNow, untilNow, bounded, limit.value, cursor.value);
    var page := FetchPage(store, bounded, limit.value, cursor.value);
    return Ok(page);
  }

  // ---------------------------------------------------------------- the journal around a cursor

  // In memory the numbers are consecutive, in SQLite they only grow.

  function LastSeq(log: seq<Record>): int { if log == [] then 0 else log[|log| - 1].ingestSeq }

  ghost predicate Ascending(log: seq<Record>) {
    Increasing(log) && forall i :: 0 <= i < |log| ==> log[i].ingestSeq > 0
  }

  lemma NumberedAscends(log: seq<Record>)
    requires Numbered(log)
    ensures Ascending(log) && LastSeq(log) == |log|
  {
  }

  lemma NotAbove(log: seq<Record>, c: int, x: Record)
    requires Ascending(log) && LastSeq(log) <= c && x in log
    ensures 0 < x.ingestSeq <= c
  {
  }

  /** The records the filter asks for. */
  function Matching(f: EventFilter): Record -> bool { r => Matches(r, f) }

  function Upto(f: EventFilter, c: int): Record -> bool { r => Matches(r, f) && r.ingestSeq <= c }

  function Beyond(f: EventFilter, c: int): Record -> bool { r => Matches(r, f) && r.ingestSeq > c }

  lemma {:induction false} FilterAgree<T>(s: seq<T>, p: T -> bool, q: T -> bool)
    requires forall x :: x in s ==> p(x) == q(x)
    ensures Filter(s, p) == Filter(s, q)
  {
    if s != [] {
      var init, x := s[..|s| - 1], s[|s| - 1];
      assert x in s && forall y :: y in init ==> y in s;
      FilterAgree(init, p, q);
    }
  }

  /** What the query behind a page selects. */
  lemma {:induction false} QueryMeaning(log: seq<Record>, f: EventFilter, limit: int, c: int)
    requires Ascending(log) && limit > 0 && c >= 0
    ensures var rest := Filter(log, Beyond(f, c));
            EventsOf(log, PageQuery(f, limit, c)) == if |rest| > limit + 1 then rest[..limit + 1] else rest
  {
    var g := PageQuery(f, limit, c);
    var p: Record -> bool := r => Selected(r, g);
    forall r | r in log ensures p(r) == Beyond(f, c)(r) { assert r.ingestSeq > 0; }
    FilterAgree(log, p, Beyond(f, c));
    assert EventsOf(log, g) == Slice(Filter(log, p), 0, limit + 1);
  }

  lemma {:induction false} FilterNone<T>(s: seq<T>, p: T -> bool)
    requires forall x :: x in s ==> !p(x)
    ensures Filter(s, p) == []
  {
    if s != [] {
      var init, x := s[..|s| - 1], s[|s| - 1];
      assert x in s && forall y :: y in init ==> y in s;
      FilterNone(init, p);
    }
  }

  lemma {:induction false} NoneBeyond(log: seq<Record>, f: EventFilter, c: int)
    requires Ascending(log) && LastSeq(log) <= c
    ensures Filter(log, Beyond(f, c)) == []
  {
    forall x | x in log ensures !Beyond(f, c)(x) { NotAbove(log, c, x); }
    FilterNone(log, Beyond(f, c));
  }

  /** The cursor cuts the matching records in two. */
  lemma {:induction false} CursorSplits(log: seq<Record>, f: EventFilter, c: int)
    requires Ascending(log)
    ensures Filter(log, Matching(f)) == Filter(log, Upto(f, c)) + Filter(log, Beyond(f, c))
  {
    if log != [] {
      var init, r := log[..|log| - 1], log[|log| - 1];
      CursorSplits(init, f, c);
      assert init + [r] == log && LastSeq(init) < r.ingestSeq;
      FilterSnoc(init, r, Matching(f));
      FilterSnoc(init, r, Upto(f, c));
      FilterSnoc(init, r, Beyond(f, c));
      if r.ingestSeq <= c { NoneBeyond(init, f, c); }
    }
  }

  /** Which of the matching records come up to the cursor. */
  lemma {:induction false} CursorSplitsAt(log: seq<Record>, f: EventFilter, c: int, i: nat)
    requires Ascending(log) && i < |Filter(log, Matching(f))|
    ensures i < |Filter(log, Upto(f, c))| <==> Filter(log, Matching(f))[i].ingestSeq <= c
  {
    CursorSplits(log, f, c);
    var u, b := Filter(log, Upto(f, c)), Filter(log, Beyond(f, c));
    if i < |u| {
      FilterMembers(log, Upto(f, c), u[i]);
    } else {
      FilterMembers(log, Beyond(f, c), b[i - |u|]);
    }
  }

  /** How many records come up to the number of the `n`-th. */
  lemma {:induction false} UptoCounts(log: seq<Record>, f: EventFilter, n: nat)
    requires Ascending(log) && 0 < n <= |Filter(log, Matching(f))|
    ensures |Filter(log, Upto(f, Filter(log, Matching(f))[n - 1].ingestSeq))| == n
  {
    var all := Filter(log, Matching(f));
    var c := all[n - 1].ingestSeq;
    CursorSplits(log, f, c);
    FilterInOrder(log, Matching(f));
    CursorSplitsAt(log, f, c, n - 1);
    if n < |all| {
      assert all[n].ingestSeq > all[n - 1].ingestSeq;
      CursorSplitsAt(log, f, c, n);
    }
  }

  lemma CutAlike<T>(u: seq<T>, rest: seq<T>, u': seq<T>, rest': seq<T>, k: nat)
    requires u + rest == u' + rest' && k <= |rest| && |u'| == |u| + k
    ensures u' == u + rest[..k] && rest' == rest[k..]
  {
    var all := u + rest;
    assert u' == all[..|u'|] && all[..|u'|] == u + rest[..k];
    assert rest' == all[|u'|..] && all[|u'|..] == rest[k..];
  }

  /** A full page moves the cursor past exactly its own records. */
  lemma {:induction false} Advance(log: seq<Record>, f: EventFilter, limit: int, c: int)
    requires Ascending(log) && c >= 0 && 0 < limit <= |Filter(log, Beyond(f, c))|
    ensures var rest := Filter(log, Beyond(f, c));
            var next := rest[limit - 1].ingestSeq;
            && Filter(log, Upto(f, next)) == Filter(log, Upto(f, c)) + rest[..limit]
            && Filter(log, Beyond(f, next)) == rest[limit..]
            && c < next <= LastSeq(log)
  {
    var u, rest := Filter(log, Upto(f, c)), Filter(log, Beyond(f, c));
    var last := rest[limit - 1];
    CursorSplits(log, f, c);
    CursorSplits(log, f, last.ingestSeq);
    FilterMembers(log, Beyond(f, c), last);
    NotAbove(log, LastSeq(log), last);
    assert Filter(log, Matching(f))[|u| + limit - 1] == last;
    UptoCounts(log, f, |u| + limit);
    CutAlike(u, rest, Filter(log, Upto(f, last.ingestSeq)), Filter(log, Beyond(f, last.ingestSeq)), limit);
  }

  lemma {:induction false} LaterIsAbove(log: seq<Record>, more: seq<Record>, c: int, x: Record)
    requires Ascending(log + more) && c <= LastSeq(log) && x in more
    ensures c < x.ingestSeq
  {
    var all := log + more;
    var i :| 0 <= i < |more| && more[i] == x;
    assert all[|log| + i] == x;
    if log != [] { assert all[|log| - 1] == log[|log| - 1]; }
  }

  /** Appends do not change what lies up to the cursor. */
  lemma {:induction false} UptoStands(log: seq<Record>, log': seq<Record>, f: EventFilter, c: int)
    requires Ascending(log') && log <= log' && c <= LastSeq(log)
    ensures Filter(log', Upto(f, c)) == Filter(log, Upto(f, c))
  {
    var more := log'[|log|..];
    assert log' == log + more;
    FilterConcat(log, more, Upto(f, c));
    forall x | x in more ensures !Upto(f, c)(x) { LaterIsAbove(log, more, c, x); }
    FilterNone(more, Upto(f, c));
  }

  // ---------------------------------------------------------------- the walk

  /** One way of answering: the page of a journal at a cursor. */
  type Pager = (seq<Record>, int) -> Page

  function Paging(f: EventFilter, limit: int): Pager
    requires limit > 0
  {
    (log, c) => PageOf(log, f, limit, c)
  }

  /** What a client collects that follows the cursor, `logs[k]` being the journal, or whatever else
      the store keeps, when it asks for page `k`. */
  function Walk<T>(logs: seq<T>, page: (T, int) -> Page, c: int): seq<Record>
    decreases |logs|
  {
    if logs == [] then []
    else
      var p := page(logs[0], c);
      p.items + if p.hasMore then Walk(logs[1..], page, CursorOf(p.nextCursor).GetOr(0)) else []
  }

  /** The last of these pages, and no earlier one, says that there are no more. */
  predicate Ends<T>(logs: seq<T>, page: (T, int) -> Page, c: int)
    decreases |logs|
  {
    logs != [] &&
    var p := page(logs[0], c);
    if p.hasMore then Ends(logs[1..], page, CursorOf(p.nextCursor).GetOr(0)) else |logs| == 1
  }

  /** Journals of one store as time goes by, their numbers within 64 bits. */
  ghost predicate Growing(logs: seq<seq<Record>>) {
    && (forall i :: 0 <= i < |logs| ==> Fits(logs[i]))
    && (forall i, j :: 0 <= i < j < |logs| ==> logs[i] <= logs[j])
  }

  /** A page in terms of the records beyond the cursor. */
  ghost predicate Shows(p: Page, rest: seq<Record>, limit: int)
    requires limit > 0
  {
    && p.hasMore == (|rest| > limit)
    && p.items == (if p.hasMore then rest[..limit] else rest)
    && (p.hasMore ==> CursorOf(p.nextCursor) == Some(rest[limit - 1].ingestSeq))
  }

  ghost predicate Fits(log: seq<Record>) { Ascending(log) && LastSeq(log) < 0x8000_0000_0000_0000 }

  lemma {:induction false} PageMeaning(log: seq<Record>, f: EventFilter, limit: int, c: int)
    requires Fits(log) && limit > 0 && c >= 0
    ensures Shows(PageOf(log, f, limit, c), Filter(log, Beyond(f, c)), limit)
  {
    var rest := Filter(log, Beyond(f, c));
    QueryMeaning(log, f, limit, c);
    if |rest| > limit {
      Advance(log, f, limit, c);
      CursorRoundTrip(rest[limit - 1].ingestSeq);
      assert rest[..limit + 1][..limit] == rest[..limit];
    }
  }

  ghost predicate Honest(page: Pager, f: EventFilter, limit: int)
    requires limit > 0
  {
    forall log, c :: Fits(log) && c >= 0 ==> Shows(page(log, c), Filter(log, Beyond(f, c)), limit)
  }

  lemma PagingIsHonest(f: EventFilter, limit: int)
    requires limit > 0
    ensures Honest(Paging(f, limit), f, limit)
  {
    forall log, c | Fits(log) && c >= 0 ensures Shows(Paging(f, limit)(log, c), Filter(log, Beyond(f, c)), limit) {
      PageMeaning(log, f, limit, c);
    }
  }

  /** The page at the old cursor and what lies beyond the new one, on a later journal. */
  lemma {:induction false} PageAndRest(log: seq<Record>, log': seq<Record>, f: EventFilter, limit: int, c: int)
    requires Ascending(log) && Ascending(log') && log <= log'
    requires 0 <= c <= LastSeq(log) && 0 < limit <= |Filter(log, Beyond(f, c))|
    ensures var rest := Filter(log, Beyond(f, c));
            Filter(log', Beyond(f, c)) == rest[..limit] + Filter(log', Beyond(f, rest[limit - 1].ingestSeq))
  {
    var rest := Filter(log, Beyond(f, c));
    var next := rest[limit - 1].ingestSeq;
    Advance(log, f, limit, c);
    UptoStands(log, log', f, c);
    UptoStands(log, log', f, next);
    CursorSplits(log', f, c);
    CursorSplits(log', f, next);
    var u, b, b' := Filter(log, Upto(f, c)), Filter(log', Beyond(f, c)), Filter(log', Beyond(f, next));
    SameFront(u, b, rest[..limit], b');
  }

  lemma SameFront(u: seq<Record>, b: seq<Record>, m: seq<Record>, b': seq<Record>)
    requires u + b == u + m + b'
    ensures b == m + b'
  {
    assert (u + b)[|u|..] == b && (u + m + b')[|u|..] == m + b';
  }

  lemma {:induction false} WalkOn(logs: seq<seq<Record>>, page: Pager, f: EventFilter, limit: int, c: int, next: int)
    requires limit > 0 && |logs| > 1 && Growing(logs) && 0 <= c <= LastSeq(logs[0])
    requires Shows(page(logs[0], c), Filter(logs[0], Beyond(f, c)), limit) && page(logs[0], c).hasMore
    requires next == Filter(logs[0], Beyond(f, c))[limit - 1].ingestSeq
    requires Walk(logs[1..], page, next) == Filter(logs[|logs| - 1], Beyond(f, next))
    ensures Walk(logs, page, c) == Filter(logs[|logs| - 1], Beyond(f, c))
  {
    assert Fits(logs[0]);
    PageAndRest(logs[0], logs[|logs| - 1], f, limit, c);
  }

  lemma StillGrowing(logs: seq<seq<Record>>)
    requires |logs| > 1 && Growing(logs)
    ensures Growing(logs[1..]) && LastSeq(logs[0]) <= LastSeq(logs[1..][0])
  {
    assert logs[0] <= logs[1];
    forall i, j | 0 <= i < j < |logs[1..]| ensures logs[1..][i] <= logs[1..][j] {
      assert logs[i + 1] <= logs[j + 1];
    }
  }

  lemma {:induction false} HonestAt(page: Pager, f: EventFilter, limit: int, log: seq<Record>, c: int)
    requires limit > 0 && Honest(page, f, limit) && Fits(log) && c >= 0
    ensures Shows(page(log, c), Filter(log, Beyond(f, c)), limit)
  {
  }

  /** Where the walk stands after a page that says there are more. */
  lemma NextPage(log: seq<Record>, p: Page, f: EventFilter, limit: int, c: int) returns (next: int)
    requires Ascending(log) && c >= 0 && limit > 0 && Shows(p, Filter(log, Beyond(f, c)), limit) && p.hasMore
    ensures c < next <= LastSeq(log) && next == Filter(log, Beyond(f, c))[limit - 1].ingestSeq
    ensures CursorOf(p.nextCursor) == Some(next)
    ensures |Filter(log, Beyond(f, next))| == |Filter(log, Beyond(f, c))| - limit
  {
    Advance(log, f, limit, c);
    next := Filter(log, Beyond(f, c))[limit - 1].ingestSeq;
  }

  /** A walk from `c` that ends has collected the matching records beyond `c` of the last journal. */
  ghost predicate Collects(logs: seq<seq<Record>>, page: Pager, f: EventFilter, c: int)
    requires logs != []
  {
    Walk(logs, page, c) == Filter(logs[|logs| - 1], Beyond(f, c))
  }

  lemma {:induction false} LastPage(logs: seq<seq<Record>>, page: Pager, f: EventFilter, limit: int, c: int)
    requires limit > 0 && logs != [] && Ends(logs, page, c)
    requires Shows(page(logs[0], c), Filter(logs[0], Beyond(f, c)), limit) && !page(logs[0], c).hasMore
    ensures Collects(logs, page, f, c)
  {
    assert page(logs[0], c).items + [] == page(logs[0], c).items;
  }

  /** The rest of a walk after a page that says there are more. */
  lemma RestOfWalk(logs: seq<seq<Record>>, page: Pager, f: EventFilter, limit: int, c: int) returns (next: int)
    requires limit > 0 && logs != [] && Growing(logs) && 0 <= c <= LastSeq(logs[0]) && Ends(logs, page, c)
    requires Shows(page(logs[0], c), Filter(logs[0], Beyond(f, c)), limit) && page(logs[0], c).hasMore
    ensures |logs| > 1 && Growing(logs[1..]) && 0 <= next <= LastSeq(logs[1..][0]) && Ends(logs[1..], page, next)
    ensures Collects(logs[1..], page, f, next) ==> Collects(logs, page, f, c)
  {
    assert Fits(logs[0]);
    next := NextPage(logs[0], page(logs[0], c), f, limit, c);
    StillGrowing(logs);
    if Collects(logs[1..], page, f, next) { WalkOn(logs, page, f, limit, c, next); }
  }

  lemma {:induction false} WalkFrom(logs: seq<seq<Record>>, page: Pager, f: EventFilter, limit: int, c: int)
    requires limit > 0 && Honest(page, f, limit)
    requires logs != [] && Growing(logs) && 0 <= c <= LastSeq(logs[0]) && Ends(logs, page, c)
    ensures Collects(logs, page, f, c)
    decreases |logs|
  {
    assert Fits(logs[0]);
    HonestAt(page, f, limit, logs[0], c);
    if page(logs[0], c).hasMore {
      var next := RestOfWalk(logs, page, f, limit, c);
      WalkFrom(logs[1..], page, f, limit, next);
    } else {
      LastPage(logs, page, f, limit, c);
    }
  }

  /** CURSOR WALK COMPLETENESS: whatever is appended between the pages, a walk that ends has
      collected exactly the matching records of the last journal read, in ingest order, with
      no skip and no repeat. */
  lemma {:induction false} WalkIsComplete(logs: seq<seq<Record>>, f: EventFilter, limit: int)
    requires limit > 0 && Growing(logs) && Ends(logs, Paging(f, limit), 0)
    ensures Walk(logs, Paging(f, limit), 0) == Filter(logs[|logs| - 1], Matching(f))
  {
    var last := logs[|logs| - 1];
    PagingIsHonest(f, limit);
    WalkFrom(logs, Paging(f, limit), f, limit, 0);
    forall r | r in last ensures Beyond(f, 0)(r) == Matching(f)(r) {
      NotAbove(last, LastSeq(last), r);
    }
    FilterAgree(last, Beyond(f, 0), Matching(f));
  }

  /** How many pages `k` records take. */
  function PagesFor(k: nat, limit: int): nat
    requires limit > 0
  {
    if k <= limit then 1 else 1 + PagesFor(k - limit, limit)
  }

  function Repeated<T>(log: T, n: nat): seq<T> { seq(n, _ => log) }

  lemma {:induction false} EndsFrom(log: seq<Record>, page: Pager, f: EventFilter, limit: int, c: int)
    requires limit > 0 && Honest(page, f, limit) && Fits(log) && 0 <= c <= LastSeq(log)
    ensures Ends(Repeated(log, PagesFor(|Filter(log, Beyond(f, c))|, limit)), page, c)
    decreases LastSeq(log) - c
  {
    var k := |Filter(log, Beyond(f, c))|;
    HonestAt(page, f, limit, log, c);
    if page(log, c).hasMore {
      var next := NextPage(log, page(log, c), f, limit, c);
      EndsFrom(log, page, f, limit, next);
      assert Repeated(log, PagesFor(k, limit))[1..] == Repeated(log, PagesFor(k - limit, limit));
    }
  }

  /** On a journal that stands still the walk ends, after as many pages as the records fill. */
  lemma {:induction false} WalkEnds(log: seq<Record>, f: EventFilter, limit: int)
    requires Fits(log) && limit > 0
    ensures Ends(Repeated(log, PagesFor(|Filter(log, Beyond(f, 0))|, limit)), Paging(f, limit), 0)
  {
    PagingIsHonest(f, limit);
    EndsFrom(log, Paging(f, limit), f, limit, 0);
  }
}
