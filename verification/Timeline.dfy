/** An object's timeline as the command line builds it (cmd/krply/timeline.go). */
module Timeline {
  import opened Text
  import opened Seqs
  import opened Events
  import opened Journal

  datatype RowKind = GapRow | BaselineRow | EventRow(w: WatchType)

  /** `Changes` is the text made of the diff of two payloads. */
  datatype Summary =
    | GapSummary(from: string, to: string, reason: string)
    | Relist | DeletedObject | ProgressOnly | InitialState
    | Changes(text: string)

  datatype Row = Row(observed: Time, kind: RowKind, rv: string, summary: Summary, synthetic: bool)

  /** How a change of payload is described. */
  type Describe = (string, string) -> string

  predicate Skipped(rec: Record, since: Time) { since != ZERO_TIME && rec.observedAt < since }

  // ---------------------------------------------------------------- rows

  function MarkerRow(m: Record): seq<Row> {
    match m.rtype
    case Gap =>
      var g := m.gap.GetOr(GapInfo("?", "?", "", ZERO_TIME));
      [Row(m.observedAt, GapRow, "", GapSummary(g.fromRV, g.toRV, g.reason), true)]
    case Baseline => [Row(m.observedAt, BaselineRow, m.resource.resourceVersion, Relist, true)]
    case _ => []
  }

  function MarkerRows(ms: seq<Record>, since: Time): seq<Row> {
    if ms == [] then []
    else
      var m := ms[|ms| - 1];
      MarkerRows(ms[..|ms| - 1], since) + if Skipped(m, since) then [] else MarkerRow(m)
  }

  /** The rows so far, and the payload the next change is described against. */
  datatype Progress = Progress(rows: seq<Row>, prev: string)

  function Step(p: Progress, rec: Record, since: Time, describe: Describe): Progress {
    if Skipped(rec, since) then p.(prev := if rec.watchType != Deleted then rec.payload else "")
    else match rec.watchType
      case Deleted => Progress(p.rows + [EventRowOf(rec, DeletedObject)], "")
      case Bookmark => p.(rows := p.rows + [EventRowOf(rec, ProgressOnly)])
      case _ => Progress(p.rows + [EventRowOf(rec, ChangeOf(p.prev, rec.payload, describe))], rec.payload)
  }

  function EventRowOf(rec: Record, summary: Summary): Row {
    Row(rec.observedAt, EventRow(rec.watchType), rec.resource.resourceVersion, summary, rec.synthetic)
  }

  function ChangeOf(prev: string, payload: string, describe: Describe): Summary {
    if prev != "" || payload != "" then Changes(describe(prev, payload)) else InitialState
  }

  function Steps(recs: seq<Record>, since: Time, describe: Describe): Progress {
    if recs == [] then Progress([], "")
    else Step(Steps(recs[..|recs| - 1], since, describe), recs[|recs| - 1], since, describe)
  }

  predicate ByObserved(a: Row, b: Row) { a.observed <= b.observed }

  /** The timeline: markers and events, stably sorted by time. */
  function TimelineOf(recs: seq<Record>, gaps: seq<Record>, baselines: seq<Record>, since: Time,
                      describe: Describe): seq<Row> {
    SortBy(MarkerRows(gaps + baselines, since) + Steps(recs, since, describe).rows, ByObserved)
  }

  lemma {:induction false} StepsNext(recs: seq<Record>, since: Time, describe: Describe, i: nat)
    requires i < |recs|
    ensures Steps(recs[..i + 1], since, describe) == Step(Steps(recs[..i], since, describe), recs[i], since, describe)
  {
    assert recs[..i + 1][..i] == recs[..i];
  }

  /** `buildTimeline`. */
  method BuildTimeline(recs: seq<Record>, gaps: seq<Record>, baselines: seq<Record>, since: Time, describe: Describe)
      returns (rows: seq<Row>)
    ensures rows == TimelineOf(recs, gaps, baselines, since, describe)
  {
    var markers := gaps + baselines;
    rows := [];
    for i := 0 to |markers|
      invariant rows == MarkerRows(markers[..i], since)
    {
      assert markers[..i + 1][..i] == markers[..i];
      var m := markers[i];
      if since != ZERO_TIME && m.observedAt < since { continue; }
      match m.rtype {
        case Gap =>
          var from, to, reason := "?", "?", "";
          if m.gap.Some? { from, to, reason := m.gap.value.fromRV, m.gap.value.toRV, m.gap.value.reason; }
          rows := rows + [Row(m.observedAt, GapRow, "", GapSummary(from, to, reason), true)];
        case Baseline =>
          rows := rows + [Row(m.observedAt, BaselineRow, m.resource.resourceVersion, Relist, true)];
        case _ =>
      }
    }
    assert markers[..|markers|] == markers;
    var events := EventRows(recs, since, describe);
    rows := SortBy(rows + events, ByObserved);
  }

  method EventRows(recs: seq<Record>, since: Time, describe: Describe) returns (rows: seq<Row>)
    ensures rows == Steps(recs, since, describe).rows
  {
    rows := [];
    var prev := "";
    for i := 0 to |recs|
      invariant Progress(rows, prev) == Steps(recs[..i], since, describe)
    {
      StepsNext(recs, since, describe, i);
      var rec := recs[i];
      if since != ZERO_TIME && rec.observedAt < since {
        if rec.watchType != Deleted { prev := rec.payload; } else { prev := ""; }
        continue;
      }
      match rec.watchType {
        case Deleted =>
          rows := rows + [EventRowOf(rec, DeletedObject)];
          prev := "";
        case Bookmark =>
          rows := rows + [EventRowOf(rec, ProgressOnly)];
        case _ =>
          var summary := InitialState;
          if |prev| > 0 || |rec.payload| > 0 { summary := Changes(describe(prev, rec.payload)); }
          rows := rows + [EventRowOf(rec, summary)];
          prev := rec.payload;
      }
    }
    assert recs[..|recs|] == recs;
  }

  // ---------------------------------------------------------------- the window

  function InWindow(since: Time): Row -> bool { (row: Row) => row.observed >= since }

  lemma {:induction false} MarkersInWindow(ms: seq<Record>, since: Time)
    requires since != ZERO_TIME
    ensures MarkerRows(ms, since) == Filter(MarkerRows(ms, ZERO_TIME), InWindow(since))
  {
    if ms != [] {
      var init, m := ms[..|ms| - 1], ms[|ms| - 1];
      MarkersInWindow(init, since);
      var all := MarkerRows(init, ZERO_TIME);
      FilterConcat(all, MarkerRow(m), InWindow(since));
      FilterRow(MarkerRow(m), m.observedAt, since);
    }
  }

  lemma {:induction false} FilterRow(rows: seq<Row>, t: Time, since: Time)
    requires |rows| <= 1 && (rows != [] ==> rows[0].observed == t)
    ensures Filter(rows, InWindow(since)) == if t >= since then rows else []
  {
    if rows != [] { assert rows[..0] == [] && rows == [rows[0]]; }
  }

  // ---------------------------------------------------------------- the payload changes are described against

  /** The payload the next change is described against: a skipped record leaves its own, a BOOKMARK
      too, where a BOOKMARK in the window leaves what stood. */
  function Prev(recs: seq<Record>, since: Time): string {
    if recs == [] then ""
    else
      var rec := recs[|recs| - 1];
      if rec.watchType == Deleted then ""
      else if rec.watchType == Bookmark && !Skipped(rec, since) then Prev(recs[..|recs| - 1], since)
      else rec.payload
  }

  predicate IsChange(rec: Record) { rec.watchType != Deleted && rec.watchType != Bookmark }

  /** The row of a record in the window. */
  function RowOf(rec: Record, prev: string, describe: Describe): Row {
    EventRowOf(rec, match rec.watchType
      case Deleted => DeletedObject
      case Bookmark => ProgressOnly
      case _ => ChangeOf(prev, rec.payload, describe))
  }

  lemma {:induction false} StepsPrev(recs: seq<Record>, since: Time, describe: Describe)
    ensures Steps(recs, since, describe).prev == Prev(recs, since)
  {
    if recs != [] { StepsPrev(recs[..|recs| - 1], since, describe); }
  }

  lemma {:induction false} StepsRows(init: seq<Record>, rec: Record, since: Time, describe: Describe)
    ensures Steps(init + [rec], since, describe).rows ==
            if Skipped(rec, since) then Steps(init, since, describe).rows
            else Steps(init, since, describe).rows + [RowOf(rec, Prev(init, since), describe)]
  {
    assert (init + [rec])[..|init|] == init;
    StepsPrev(init, since, describe);
  }

  /** The in-window rows of the full timeline. */
  function FullInWindow(recs: seq<Record>, since: Time, describe: Describe): seq<Row> {
    Filter(Steps(recs, ZERO_TIME, describe).rows, InWindow(since))
  }

  lemma {:induction false} FullRows(init: seq<Record>, rec: Record, since: Time, describe: Describe)
    requires since != ZERO_TIME
    ensures FullInWindow(init + [rec], since, describe) ==
            if Skipped(rec, since) then FullInWindow(init, since, describe)
            else FullInWindow(init, since, describe) + [RowOf(rec, Prev(init, ZERO_TIME), describe)]
  {
    var rows, row := Steps(init, ZERO_TIME, describe).rows, RowOf(rec, Prev(init, ZERO_TIME), describe);
    StepsRows(init, rec, ZERO_TIME, describe);
    FilterSnoc(rows, row, InWindow(since));
    assert FullInWindow(init, since, describe) + [] == FullInWindow(init, since, describe);
  }

  /** The in-window change at `i` is described alike with and without the window. */
  predicate DescribedAlike(recs: seq<Record>, since: Time, i: nat)
    requires i < |recs|
  {
    !Skipped(recs[i], since) && IsChange(recs[i]) ==> Prev(recs[..i], since) == Prev(recs[..i], ZERO_TIME)
  }

  ghost predicate AllDescribedAlike(recs: seq<Record>, since: Time) {
    forall i :: 0 <= i < |recs| ==> DescribedAlike(recs, since, i)
  }

  lemma AlikeSnoc(init: seq<Record>, rec: Record, since: Time)
    ensures AllDescribedAlike(init + [rec], since) <==>
            (AllDescribedAlike(init, since) && DescribedAlike(init + [rec], since, |init|))
  {
    var recs := init + [rec];
    forall i | 0 <= i < |init| ensures DescribedAlike(recs, since, i) <==> DescribedAlike(init, since, i) {
      assert recs[..i] == init[..i] && recs[i] == init[i];
    }
  }

  lemma {:induction false} AlikeRows(recs: seq<Record>, since: Time, describe: Describe)
    requires since != ZERO_TIME && AllDescribedAlike(recs, since)
    ensures Steps(recs, since, describe).rows == FullInWindow(recs, since, describe)
  {
    if recs != [] {
      var init, rec := recs[..|recs| - 1], recs[|recs| - 1];
      assert recs == init + [rec];
      AlikeSnoc(init, rec, since);
      AlikeRows(init, since, describe);
      StepsRows(init, rec, since, describe);
      FullRows(init, rec, since, describe);
    }
  }

  /** A description that shows what a change is described against. */
  function Showing(): Describe { (prev, payload) => prev }

  ghost predicate ShowAlike(recs: seq<Record>, since: Time) {
    Steps(recs, since, Showing()).rows == FullInWindow(recs, since, Showing())
  }

  lemma LastAlike(init: seq<Record>, rec: Record, since: Time)
    requires since != ZERO_TIME && ShowAlike(init + [rec], since)
    ensures ShowAlike(init, since) && DescribedAlike(init + [rec], since, |init|)
  {
    assert (init + [rec])[..|init|] == init;
    StepsRows(init, rec, since, Showing());
    FullRows(init, rec, since, Showing());
    if !Skipped(rec, since) {
      var x, y := Steps(init, since, Showing()).rows, FullInWindow(init, since, Showing());
      var a, b := RowOf(rec, Prev(init, since), Showing()), RowOf(rec, Prev(init, ZERO_TIME), Showing());
      SnocAlike(x, a, y, b);
    }
  }

  lemma {:induction false} RowsAlike(recs: seq<Record>, since: Time)
    requires since != ZERO_TIME && ShowAlike(recs, since)
    ensures AllDescribedAlike(recs, since)
  {
    if recs != [] {
      var init, rec := recs[..|recs| - 1], recs[|recs| - 1];
      assert recs == init + [rec];
      LastAlike(init, rec, since);
      RowsAlike(init, since);
      AlikeSnoc(init, rec, since);
    }
  }

  lemma SnocAlike<T>(x: seq<T>, a: T, y: seq<T>, b: T)
    requires x + [a] == y + [b]
    ensures x == y && a == b
  {
    assert x == (x + [a])[..|x|] && y == (y + [b])[..|y|];
    assert a == (x + [a])[|x|] && b == (y + [b])[|y|];
  }

  // ---------------------------------------------------------------- sorting hides nothing

  /** The rows of one timeline at the times of the other's. */
  ghost predicate SameTimes(a: seq<Row>, b: seq<Row>) {
    |a| == |b| && forall i :: 0 <= i < |a| ==> a[i].observed == b[i].observed
  }

  lemma {:induction false} InsertSameTimes(x: Row, y: Row, a: seq<Row>, b: seq<Row>)
    requires SameTimes(a, b) && x.observed == y.observed
    ensures SameTimes(Insert(x, a, ByObserved), Insert(y, b, ByObserved))
    ensures Insert(x, a, ByObserved) == Insert(y, b, ByObserved) ==> x == y && a == b
  {
    if a == [] || ByObserved(a[|a| - 1], x) {
      if a + [x] == b + [y] { SnocAlike(a, x, b, y); }
    } else {
      var a', b', p, q := a[..|a| - 1], b[..|b| - 1], a[|a| - 1], b[|b| - 1];
      InsertSameTimes(x, y, a', b');
      var u, v := Insert(x, a', ByObserved), Insert(y, b', ByObserved);
      if u + [p] == v + [q] {
        SnocAlike(u, p, v, q);
        assert a == a' + [p] && b == b' + [q];
      }
    }
  }

  /** The stable sort moves rows by their times alone. */
  lemma {:induction false} SortSameTimes(a: seq<Row>, b: seq<Row>)
    requires SameTimes(a, b)
    ensures SameTimes(SortBy(a, ByObserved), SortBy(b, ByObserved))
    ensures SortBy(a, ByObserved) == SortBy(b, ByObserved) ==> a == b
  {
    if a != [] {
      var n := |a| - 1;
      SortSameTimes(a[..n], b[..n]);
      InsertSameTimes(a[n], b[n], SortBy(a[..n], ByObserved), SortBy(b[..n], ByObserved));
      assert a == a[..n] + [a[n]] && b == b[..n] + [b[n]];
    }
  }

  lemma {:induction false} WindowSameTimes(recs: seq<Record>, since: Time, describe: Describe)
    requires since != ZERO_TIME
    ensures SameTimes(Steps(recs, since, describe).rows, FullInWindow(recs, since, describe))
  {
    if recs != [] {
      var init, rec := recs[..|recs| - 1], recs[|recs| - 1];
      assert recs == init + [rec];
      WindowSameTimes(init, since, describe);
      StepsRows(init, rec, since, describe);
      FullRows(init, rec, since, describe);
    }
  }

  // ---------------------------------------------------------------- windowing

  /** The timeline of the window is the full timeline without the earlier rows. */
  predicate Windows(recs: seq<Record>, gaps: seq<Record>, baselines: seq<Record>, since: Time, describe: Describe) {
    TimelineOf(recs, gaps, baselines, since, describe) ==
    Filter(TimelineOf(recs, gaps, baselines, ZERO_TIME, describe), InWindow(since))
  }

  lemma {:induction false} WindowsIffRows(recs: seq<Record>, gaps: seq<Record>, baselines: seq<Record>, since: Time,
                                          describe: Describe)
    requires since != ZERO_TIME
    ensures Windows(recs, gaps, baselines, since, describe) <==>
            Steps(recs, since, describe).rows == FullInWindow(recs, since, describe)
  {
    var ms, es := MarkerRows(gaps + baselines, ZERO_TIME), Steps(recs, ZERO_TIME, describe).rows;
    var m, e := MarkerRows(gaps + baselines, since), Steps(recs, since, describe).rows;
    var f := FullInWindow(recs, since, describe);
    MarkersInWindow(gaps + baselines, since);
    FilterConcat(ms, es, InWindow(since));
    FilterOfSort(ms + es, InWindow(since), ByObserved);
    WindowSameTimes(recs, since, describe);
    assert SameTimes(m + e, m + f);
    SortSameTimes(m + e, m + f);
    assert (m + e)[|m|..] == e && (m + f)[|m|..] == f;
  }

  /** The last record before `i` that decides what `i` is described against: any but a BOOKMARK in
      the window. */
  function LastTelling(recs: seq<Record>, since: Time): (j: int)
    ensures -1 <= j < |recs|
    ensures j >= 0 ==> Skipped(recs[j], since) || recs[j].watchType != Bookmark
  {
    if recs == [] then -1
    else if recs[|recs| - 1].watchType == Bookmark && !Skipped(recs[|recs| - 1], since)
    then LastTelling(recs[..|recs| - 1], since)
    else |recs| - 1
  }

  /** The change at `i` is described against a skipped BOOKMARK whose payload is not the last real
      one. */
  predicate Misled(recs: seq<Record>, since: Time, i: nat)
    requires i < |recs|
  {
    !Skipped(recs[i], since) && IsChange(recs[i]) &&
    var j := LastTelling(recs[..i], since);
    j >= 0 && recs[j].watchType == Bookmark && recs[j].payload != Prev(recs[..i], ZERO_TIME)
  }

  lemma {:induction false} PrevTold(recs: seq<Record>, since: Time)
    ensures var j := LastTelling(recs, since);
            && Prev(recs, since) == (if j < 0 || recs[j].watchType == Deleted then "" else recs[j].payload)
            && (j < 0 || recs[j].watchType != Bookmark ==> Prev(recs, ZERO_TIME) == Prev(recs, since))
  {
    if recs != [] && recs[|recs| - 1].watchType == Bookmark && !Skipped(recs[|recs| - 1], since) {
      PrevTold(recs[..|recs| - 1], since);
    }
  }

  /** THE EXACT CONDITION FOR A WINDOW: whatever way changes are described, the timeline since an
      instant is the full timeline without the earlier rows, if and only if no change in the window
      is described against a skipped BOOKMARK's payload that differs from the last real one. */
  lemma WindowIsFilteredIff(recs: seq<Record>, gaps: seq<Record>, baselines: seq<Record>, since: Time)
    requires since != ZERO_TIME
    ensures (forall describe :: Windows(recs, gaps, baselines, since, describe)) <==>
            forall i :: 0 <= i < |recs| ==> !Misled(recs, since, i)
  {
    forall i | 0 <= i < |recs| ensures DescribedAlike(recs, since, i) <==> !Misled(recs, since, i) {
      PrevTold(recs[..i], since);
    }
    if AllDescribedAlike(recs, since) {
      forall describe ensures Windows(recs, gaps, baselines, since, describe) {
        AlikeRows(recs, since, describe);
        WindowsIffRows(recs, gaps, baselines, since, describe);
      }
    }
    if forall describe :: Windows(recs, gaps, baselines, since, describe) {
      assert Windows(recs, gaps, baselines, since, Showing());
      WindowsIffRows(recs, gaps, baselines, since, Showing());
      RowsAlike(recs, since);
    }
  }

  /** In particular a history without BOOKMARKs can be windowed. */
  lemma WindowWithoutBookmarks(recs: seq<Record>, gaps: seq<Record>, baselines: seq<Record>, since: Time,
                               describe: Describe)
    requires since != ZERO_TIME && forall i :: 0 <= i < |recs| ==> recs[i].watchType != Bookmark
    ensures Windows(recs, gaps, baselines, since, describe)
  {
    WindowIsFilteredIff(recs, gaps, baselines, since);
  }

  /** An input on which it fails: a change described against a skipped BOOKMARK's empty payload. */
  lemma SkippedBookmarkMisleads(added: Record, bookmark: Record, modified: Record)
    requires added.watchType == Added && added.payload != "" && added.observedAt == 1
    requires bookmark.watchType == Bookmark && bookmark.payload == "" && bookmark.observedAt == 2
    requires modified.watchType == Modified && modified.observedAt == 3
    ensures exists describe :: !Windows([added, bookmark, modified], [], [], 3, describe)
  {
    var recs := [added, bookmark, modified];
    assert recs[..2] == [added, bookmark] && recs[..2][..1] == [added];
    assert Misled(recs, 3, 2);
    WindowIsFilteredIff(recs, [], [], 3);
  }

  // ---------------------------------------------------------------- what the rows say

  /** The payload a record leaves for the next change: none after a deletion; a BOOKMARK in the
      window leaves what stood. */
  function PayloadTold(since: Time): Record -> Option<string> {
    (rec: Record) =>
      if rec.watchType == Deleted then Some("")
      else if rec.watchType == Bookmark && !(since != 0 && rec.observedAt < since) then None
      else Some(rec.payload)
  }

  lemma {:induction false} PrevMeaning(recs: seq<Record>, since: Time)
    ensures LastTold(recs, PayloadTold(since), "", Prev(recs, since))
  {
    if recs != [] {
      var n := |recs| - 1;
      PrevMeaning(recs[..n], since);
      LastToldNext(recs, PayloadTold(since), "", Prev(recs[..n], since));
    }
  }

  /** The row of a record, and the payload it is described against. */
  predicate Says(row: Row, rec: Record, prev: string, describe: Describe) {
    && row.observed == rec.observedAt && row.kind == EventRow(rec.watchType)
    && row.rv == rec.resource.resourceVersion && row.synthetic == rec.synthetic
    && match rec.watchType
       case Deleted => row.summary == DeletedObject
       case Bookmark => row.summary == ProgressOnly
       case _ =>
         row.summary == if prev == "" && rec.payload == "" then InitialState else Changes(describe(prev, rec.payload))
  }

  /** Each record from `since` on adds one row that says what it is, described against what the last
      record before it that leaves a payload left; an earlier record adds none. */
  lemma {:induction false} RowSays(init: seq<Record>, rec: Record, since: Time, describe: Describe)
    ensures var before, after := Steps(init, since, describe).rows, Steps(init + [rec], since, describe).rows;
            if since != 0 && rec.observedAt < since then after == before
            else exists row, prev :: after == before + [row] && Says(row, rec, prev, describe) &&
                                     LastTold(init, PayloadTold(since), "", prev)
  {
    var prev := Prev(init, since);
    StepsRows(init, rec, since, describe);
    PrevMeaning(init, since);
    assert Says(RowOf(rec, prev, describe), rec, prev, describe);
  }

  /** A GAP or BASELINE from `since` on adds one row, and nothing else does. */
  lemma {:induction false} MarkerSays(init: seq<Record>, m: Record, since: Time)
    ensures var before, after := MarkerRows(init, since), MarkerRows(init + [m], since);
            if (since != 0 && m.observedAt < since) || (m.rtype != Gap && m.rtype != Baseline) then after == before
            else exists row :: after == before + [row] && row.observed == m.observedAt && row.synthetic &&
                   if m.rtype == Baseline then
                     row.kind == BaselineRow && row.rv == m.resource.resourceVersion && row.summary == Relist
                   else
                     row.kind == GapRow && row.rv == "" &&
                     row.summary == match m.gap
                       case Some(g) => GapSummary(g.fromRV, g.toRV, g.reason)
                       case None => GapSummary("?", "?", "")
  {
    assert (init + [m])[..|init|] == init;
    var before := MarkerRows(init, since);
    assert before + [] == before;
    if m.rtype == Gap || m.rtype == Baseline { assert MarkerRow(m) == [MarkerRow(m)[0]]; }
  }

  function AtTime(t: Time): Row -> bool { (row: Row) => row.observed == t }

  lemma {:induction false} SortLevel(rows: seq<Row>, t: Time)
    requires forall i :: 0 <= i < |rows| ==> rows[i].observed == t
    ensures SortBy(rows, ByObserved) == rows
  {
    if rows != [] {
      SortLevel(rows[..|rows| - 1], t);
      assert rows == rows[..|rows| - 1] + [rows[|rows| - 1]];
    }
  }

  /** The timeline is those rows by time, and in their order where times are equal. */
  lemma {:induction false} TimelineIsOrdered(recs: seq<Record>, gaps: seq<Record>, baselines: seq<Record>, since: Time,
                                             describe: Describe)
    ensures var rows := TimelineOf(recs, gaps, baselines, since, describe);
            var all := MarkerRows(gaps + baselines, since) + Steps(recs, since, describe).rows;
            && (forall i, j :: 0 <= i < j < |rows| ==> rows[i].observed <= rows[j].observed)
            && multiset(rows) == multiset(all)
            && forall t :: Filter(rows, AtTime(t)) == Filter(all, AtTime(t))
  {
    var all := MarkerRows(gaps + baselines, since) + Steps(recs, since, describe).rows;
    SortSorted(all, ByObserved);
    SortMultiset(all, ByObserved);
    forall t ensures Filter(SortBy(all, ByObserved), AtTime(t)) == Filter(all, AtTime(t)) {
      FilterOfSort(all, AtTime(t), ByObserved);
      var level := Filter(all, AtTime(t));
      forall i | 0 <= i < |level| ensures level[i].observed == t { FilterMembers(all, AtTime(t), level[i]); }
      SortLevel(level, t);
    }
  }
}
