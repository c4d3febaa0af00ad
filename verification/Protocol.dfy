/** The recording protocol of one stream. */
module Protocol {
  import opened Text
  import opened Events
  import opened Identity
  import opened Journal
  import opened Reducer
  import opened Watch
  import opened Server
  import opened Coverage

  // A transition system of API server, collector, journal, and the failures between them.

  // ---------------------------------------------------------------- appends, seen from one stream

  ghost predicate NulFreeLog(log: seq<Record>) {
    forall i :: 0 <= i < |log| ==> Lacks(log[i].streamId, NUL)
  }

  lemma {:induction false} DuplicateInStream(log: seq<Record>, rec: Record)
    requires NulFreeLog(log) && Lacks(rec.streamId, NUL)
    ensures IsDuplicate(log, rec) <==> Known(ForStream(log, rec.streamId), rec.eventId)
  {
    var rs := ForStream(log, rec.streamId);
    if IsDuplicate(log, rec) {
      var i :| 0 <= i < |log| && Indexed(log[i], KeyOf(rec));
      KeyNamesEvent(log[i], rec);
      ForStreamMembers(log, rec.streamId, log[i]);
      var k :| 0 <= k < |rs| && rs[k] == log[i];
      assert rs[k].eventId == rec.eventId;
    }
    if Known(rs, rec.eventId) {
      var k :| 0 <= k < |rs| && rs[k].eventId == rec.eventId;
      ForStreamMembers(log, rec.streamId, rs[k]);
      var i :| 0 <= i < |log| && log[i] == rs[k];
      KeyNamesEvent(log[i], rec);
      assert Indexed(log[i], KeyOf(rec));
    }
  }

  /** A new record of the stream is added at its end; a known one changes nothing. */
  lemma AppendToStream(log: seq<Record>, rec: Record, now: Time) returns (r: Record)
    requires NulFreeLog(log) && Lacks(rec.streamId, NUL) && rec.observedAt != ZERO_TIME
    ensures SameBut(r, rec) && NulFreeLog(Append(log, rec, now))
    ensures Known(ForStream(log, rec.streamId), rec.eventId) ==> Append(log, rec, now) == log
    ensures !Known(ForStream(log, rec.streamId), rec.eventId) ==>
              ForStream(Append(log, rec, now), rec.streamId) == ForStream(log, rec.streamId) + [r]
  {
    DuplicateInStream(log, rec);
    r := rec.(ingestSeq := |log| + 1);
  }

  lemma {:induction false} AppendElsewhere(log: seq<Record>, rec: Record, now: Time, s: string)
    requires NulFreeLog(log) && Lacks(rec.streamId, NUL) && rec.streamId != s
    ensures ForStream(Append(log, rec, now), s) == ForStream(log, s) && NulFreeLog(Append(log, rec, now))
  {
  }

  ghost predicate FreshKeys(recs: seq<Record>, xs: seq<Record>) {
    && (forall i :: 0 <= i < |xs| ==> !Known(recs, xs[i].eventId))
    && (forall i, j :: 0 <= i < j < |xs| && xs[i].eventId != "" ==> xs[i].eventId != xs[j].eventId)
  }

  ghost predicate SameRecords(ys: seq<Record>, xs: seq<Record>) {
    |ys| == |xs| && forall i :: 0 <= i < |xs| ==> SameBut(ys[i], xs[i])
  }

  lemma StillUnknown(recs: seq<Record>, xs: seq<Record>, ys: seq<Record>)
    requires xs != [] && FreshKeys(recs, xs) && SameRecords(ys, xs[..|xs| - 1])
    ensures !Known(recs + ys, xs[|xs| - 1].eventId)
  {
    var id := xs[|xs| - 1].eventId;
    forall i | 0 <= i < |ys| && ys[i].eventId != "" ensures ys[i].eventId != id {
      assert SameBut(ys[i], xs[..|xs| - 1][i]);
    }
  }

  /** A batch of unknown keys is stored whole, in order. */
  lemma {:induction false} PlayBatch(log: seq<Record>, s: string, xs: seq<Record>, now: Time) returns (ys: seq<Record>)
    requires NulFreeLog(log) && Lacks(s, NUL)
    requires forall i :: 0 <= i < |xs| ==> xs[i].streamId == s && xs[i].observedAt != ZERO_TIME
    requires FreshKeys(ForStream(log, s), xs)
    ensures SameRecords(ys, xs) && NulFreeLog(Play(log, Deliveries(xs, now)))
    ensures ForStream(Play(log, Deliveries(xs, now)), s) == ForStream(log, s) + ys
  {
    ys := [];
    if xs == [] {
      assert ForStream(log, s) + [] == ForStream(log, s);
    } else {
      var n := |xs| - 1;
      var init := PlayBatch(log, s, xs[..n], now);
      StillUnknown(ForStream(log, s), xs, init);
      assert Deliveries(xs, now)[..n] == Deliveries(xs[..n], now);
      var r := AppendToStream(Play(log, Deliveries(xs[..n], now)), xs[n], now);
      ys := init + [r];
      assert ForStream(log, s) + ys == (ForStream(log, s) + init) + [r];
    }
  }

  // ---------------------------------------------------------------- the system

  /** A watch opened at revision `start`. The server has sent every change up to `cursor`.
      It sends nothing if `start` was compacted away. */
  datatype Session = Session(start: nat, cursor: nat, serving: bool)

  /** `runStart` is the length of the stream's journal when the current process started;
      `lists` keeps, for the claims alone, the revisions of the lists the journal took. */
  datatype Sys = Sys(
    history: History, compacted: nat, log: seq<Record>,
    alive: bool, lastRV: string, session: Option<Session>,
    runStart: nat, clock: Time, listClock: Time, lists: seq<nat>)

  datatype Action =
    | ServerWrites(rev: Revision)
    | ServerCompacts(upto: nat)
    | OtherStream(rec: Record, at: Time)
    | ListReplies(r: nat, named: bool, items: seq<Item>, now: Time, reply: StoreReply)
    | WatchOpens
    | Delivers(e: nat, now: Time, reply: StoreReply)     // a change: the next one, or a redelivery
    | Bookmarks(b: nat, now: Time, reply: StoreReply)
    | SendsGone(now: Time, reply: StoreReply)            // 410 Gone
    | WatchBreaks                                        // close, idle timeout, other errors
    | ProcessStops
    | ProcessStarts

  function Recs(t: Target, s: Sys): seq<Record> { ForStream(s.log, t.streamId) }

  /** The revision a resource version names. */
  function RevisionOf(h: History, rv: string): nat {
    if h == [] then 0 else if h[|h| - 1].text == rv then |h| - 1 else RevisionOf(h[..|h| - 1], rv)
  }

  ghost predicate Names(h: History, rv: string) { exists i :: 0 <= i < |h| && h[i].text == rv }

  lemma {:induction false} RevisionOfIsRight(h: History, rv: string)
    requires Names(h, rv)
    ensures RevisionOf(h, rv) < |h| && h[RevisionOf(h, rv)].text == rv
  {
    if h[|h| - 1].text != rv {
      var i :| 0 <= i < |h| && h[i].text == rv;
      assert h[..|h| - 1][i].text == rv;
      RevisionOfIsRight(h[..|h| - 1], rv);
    }
  }

  lemma {:induction false} RevisionOfText(t: Target, h: History, i: nat)
    requires GoodHistory(t, h) && i < |h|
    ensures RevisionOf(h, h[i].text) == i && Names(h, h[i].text)
  {
    RevisionOfIsRight(h, h[i].text);
    var j := RevisionOf(h, h[i].text);
    assert i < j ==> InOrder(h, i, j);
    assert j < i ==> InOrder(h, j, i);
  }

  function Init(h: History): Sys {
    Sys(h, 0, [], false, "", None, 0, EPOCH, EPOCH, [])
  }

  /** A list that reaches the journal, whether or not the store says so. */
  predicate Relists(a: Action) { a.ListReplies? && (a.reply.Stored? || a.reply.durable) }

  function LastList(lists: seq<nat>): int { if lists == [] then -1 else lists[|lists| - 1] }

  function Max(a: int, b: int): int { if a > b then a else b }

  predicate Ticks(s: Sys, now: Time) { s.clock <= now && EPOCH < now }

  /** What the environment may do in state `s`. The hypotheses on the server are here: a
      list shows the exact collection of one revision, no older than any live event already
      journalled; a watch from `start` sends the changes after `start` in order, possibly
      more than once; a bookmark at `b` means every change up to `b` was sent. */
  ghost predicate Enabled(t: Target, s: Sys, a: Action) {
    match a
    case ServerWrites(rev) => GoodHistory(t, s.history + [rev])
    case ServerCompacts(upto) => s.compacted <= upto < |s.history|
    case OtherStream(rec, at) => rec.streamId != t.streamId && Lacks(rec.streamId, NUL)
    case ListReplies(r, named, items, now, reply) =>
      && s.alive && s.lastRV == ""
      && r < |s.history| && Lists(t, items, CollAt(t, s.history, r))
      && NoLiveAfter(t, s.history, Recs(t, s), r)
      && Ticks(s, now) && s.listClock < now
    case WatchOpens => s.alive && s.lastRV != "" && s.session.None?
    case Delivers(e, now, reply) =>
      && s.session.Some? && s.session.value.serving
      && s.session.value.start < e < |s.history| && s.history[e].change.Some?
      && Quiet(s.history, s.session.value.cursor, e - 1)
      && Ticks(s, now)
    case Bookmarks(b, now, reply) =>
      && s.session.Some? && s.session.value.serving
      && s.session.value.start <= b < |s.history|
      && Quiet(s.history, s.session.value.cursor, b)
      && Ticks(s, now)
    case SendsGone(now, reply) => s.session.Some? && Ticks(s, now)
    case WatchBreaks => s.session.Some?
    case ProcessStops => s.alive
    case ProcessStarts => !s.alive
  }

  /** The collector after handling one watch event: `drainWatch` ends on a gap or failure,
      and a failure of the store ends the process. */
  function Took(s: Sys, x: After, now: Time, cursor: nat): Sys
    requires s.session.Some?
  {
    match x.outcome
    case StoreFailure => s.(log := x.log, alive := false, lastRV := "", session := None, clock := now)
    case Continue =>
      s.(log := x.log, lastRV := x.lastRV, clock := now,
         session := Some(s.session.value.(cursor := Max(cursor, s.session.value.cursor))))
    case _ => s.(log := x.log, lastRV := x.lastRV, session := None, clock := now)
  }

  function Step(t: Target, s: Sys, a: Action): Sys
    requires (a.Delivers? || a.Bookmarks? || a.SendsGone?) ==> s.session.Some?
    requires a.Delivers? ==> a.e < |s.history| && s.history[a.e].change.Some?
    requires a.Bookmarks? ==> a.b < |s.history|
    requires a.ListReplies? ==> a.r < |s.history|
  {
    match a
    case ServerWrites(rev) => s.(history := s.history + [rev])
    case ServerCompacts(upto) => s.(compacted := upto)
    case OtherStream(rec, at) => s.(log := Append(s.log, rec, at))
    case ListReplies(r, named, items, now, reply) =>
      var x := HandleList(t, s.log, if named then s.history[r].text else "", items, now, reply);
      s.(log := x.log, lastRV := x.lastRV, alive := x.outcome != StoreFailure,
         clock := now, listClock := now, lists := if Relists(a) then s.lists + [r] else s.lists)
    case WatchOpens =>
      var start := RevisionOf(s.history, s.lastRV);
      s.(session := Some(Session(start, start, start >= s.compacted)))
    case Delivers(e, now, reply) =>
      var ev := ObjectEvent(s.history[e].change.value.w, ItemOf(s.history[e]));
      Took(s, HandleEvent(t, s.log, s.lastRV, ev, now, reply), now, e)
    case Bookmarks(b, now, reply) =>
      Took(s, HandleEvent(t, s.log, s.lastRV, BookmarkEvent(s.history[b].text), now, reply), now, b)
    case SendsGone(now, reply) =>
      Took(s, HandleEvent(t, s.log, s.lastRV, ErrorEvent(true), now, reply), now, 0)
    case WatchBreaks => s.(session := None)
    case ProcessStops => s.(alive := false, lastRV := "", session := None)
    case ProcessStarts => s.(alive := true, lastRV := "", session := None, runStart := |Recs(t, s)|)
  }

  /** `trace` is a run: every state follows from the one before by its action. */
  ghost predicate IsRun(t: Target, trace: seq<Sys>, acts: seq<Action>) {
    && |trace| == |acts| + 1
    && GoodHistory(t, trace[0].history) && Lacks(t.streamId, NUL) && trace[0] == Init(trace[0].history)
    && forall i :: 0 <= i < |acts| ==> Enabled(t, trace[i], acts[i]) && trace[i + 1] == Step(t, trace[i], acts[i])
  }

  // ---------------------------------------------------------------- the invariant

  /** While it has a resource version the collector stands between the last list and the
      end of what is journalled without loss. */
  ghost predicate OnTrack(t: Target, s: Sys, w: Witness) {
    && (s.lastRV != "" ==>
          && s.alive && Complete(t, Recs(t, s)) && 0 <= w.base
          && Names(s.history, s.lastRV) && w.base <= RevisionOf(s.history, s.lastRV) <= w.high)
    && (s.session.Some? ==>
          && s.lastRV != "" && w.base <= s.session.value.start <= s.session.value.cursor <= w.high)
  }

  /** The last BASELINE names its revision. */
  predicate LastIsNamed(recs: seq<Record>) {
    LastBaseline(recs) >= 0 && recs[LastBaseline(recs)].resource.resourceVersion != ""
  }

  ghost predicate GapBetween(recs: seq<Record>, b1: int, b2: int) {
    exists g: nat :: b1 < g < b2 && g < |recs| && recs[g].rtype == Gap
  }

  predicate NamedBaseline(recs: seq<Record>, b: nat)
    requires b < |recs|
  {
    recs[b].rtype == Baseline && recs[b].resource.resourceVersion != ""
  }

  /** Within the current process: a BASELINE that named its revision is followed by a GAP
      before the next BASELINE, and before any next list. */
  ghost predicate GapsExplainRelists(t: Target, s: Sys) {
    var recs := Recs(t, s);
    && s.runStart <= |recs|
    && PairsExplained(recs, s.runStart)
    && (s.alive && s.lastRV == "" ==> TailExplained(recs, s.runStart))
  }

  ghost predicate Inv(t: Target, s: Sys, w: Witness) {
    && NulFreeLog(s.log)
    && Sound(t, s.history, Recs(t, s), s.clock, s.listClock, w)
    && OnTrack(t, s, w)
    && GapsExplainRelists(t, s)
    && (s.lastRV != "" ==> LastIsNamed(Recs(t, s)))
    && w.base == LastList(s.lists)
  }

  // ---------------------------------------------------------------- every step keeps it

  /** `w'` keeps every mark of `w`; the new ones are the revision shown last. A list restarts at its
      revision, and nothing else takes the shown revision back. */
  ghost predicate Follows(w: Witness, w': Witness, a: Action) {
    && |w.marks| <= |w'.marks| && w'.marks == w.marks + Repeat(|w'.marks| - |w.marks|, w'.high)
    && if Relists(a) then w'.base == a.r && w'.high == a.r else w'.base == w.base && w.high <= w'.high
  }

  lemma ClockAdvances(t: Target, h: History, recs: seq<Record>, clock: Time, listClock: Time, w: Witness, now: Time)
    requires Sound(t, h, recs, clock, listClock, w) && clock <= now
    ensures Sound(t, h, recs, now, listClock, w)
  {
  }

  lemma GapSurvives(recs: seq<Record>, xs: seq<Record>, b1: int, b2: int, b2': int)
    requires GapBetween(recs, b1, b2) && b2 <= b2'
    ensures GapBetween(recs + xs, b1, b2')
  {
    var g: nat :| b1 < g < b2 && g < |recs| && recs[g].rtype == Gap;
    assert (recs + xs)[g].rtype == Gap;
  }

  ghost predicate PairsExplained(recs: seq<Record>, from: nat) {
    forall b1, b2 :: from <= b1 < b2 < |recs| && NamedBaseline(recs, b1) && recs[b2].rtype == Baseline ==>
      GapBetween(recs, b1, b2)
  }

  ghost predicate TailExplained(recs: seq<Record>, from: nat) {
    forall b :: from <= b < |recs| && NamedBaseline(recs, b) ==> GapBetween(recs, b, |recs|)
  }

  /** Records that are not BASELINEs leave the explained pairs explained. */
  lemma PairsGrow(recs: seq<Record>, from: nat, r: Record)
    requires PairsExplained(recs, from) && r.rtype != Baseline
    ensures PairsExplained(recs + [r], from)
    ensures r.rtype == Gap ==> TailExplained(recs + [r], from)
  {
    var all := recs + [r];
    forall b1, b2 | from <= b1 < b2 < |all| && NamedBaseline(all, b1) && all[b2].rtype == Baseline
      ensures GapBetween(all, b1, b2)
    {
      assert NamedBaseline(recs, b1) && recs[b2].rtype == Baseline;
      GapSurvives(recs, [r], b1, b2, b2);
    }
    if r.rtype == Gap {
      forall b | from <= b < |all| && NamedBaseline(all, b) ensures GapBetween(all, b, |all|) {
        assert all[|recs|].rtype == Gap;
      }
    }
  }

  /** A batch that starts with a BASELINE and holds no other keeps them explained, when the
      relist itself is. */
  lemma PairsGrowByList(recs: seq<Record>, from: nat, xs: seq<Record>)
    requires PairsExplained(recs, from) && TailExplained(recs, from)
    requires xs != [] && forall i :: 0 < i < |xs| ==> xs[i].rtype != Baseline
    ensures PairsExplained(recs + xs, from)
    ensures !NamedBaseline(xs, 0) ==> TailExplained(recs + xs, from)
  {
    var all := recs + xs;
    assert forall k :: |recs| <= k < |all| ==> all[k] == xs[k - |recs|];
    forall b1, b2 | from <= b1 < b2 < |all| && NamedBaseline(all, b1) && all[b2].rtype == Baseline
      ensures GapBetween(all, b1, b2)
    {
      assert NamedBaseline(recs, b1);
      GapSurvives(recs, xs, b1, if b2 < |recs| then b2 else |recs|, b2);
    }
    if !NamedBaseline(xs, 0) {
      forall b | from <= b < |all| && NamedBaseline(all, b) ensures GapBetween(all, b, |all|) {
        assert NamedBaseline(recs, b);
        GapSurvives(recs, xs, b, |recs|, |all|);
      }
    }
  }

  lemma StepWrites(t: Target, s: Sys, w: Witness, a: Action)
    requires Inv(t, s, w) && Enabled(t, s, a) && a.ServerWrites?
    ensures Inv(t, Step(t, s, a), w)
  {
    WriteKeepsSound(t, s.history, a.rev, Recs(t, s), s.clock, s.listClock, w);
    var h' := s.history + [a.rev];
    if s.lastRV != "" {
      RevisionOfIsRight(s.history, s.lastRV);
      var i := RevisionOf(s.history, s.lastRV);
      assert h'[i].text == s.lastRV;
      RevisionOfText(t, h', i);
    }
  }

  lemma StepElsewhere(t: Target, s: Sys, w: Witness, a: Action)
    requires Inv(t, s, w) && Enabled(t, s, a) && a.OtherStream?
    ensures Inv(t, Step(t, s, a), w)
  {
    AppendElsewhere(s.log, a.rec, a.at, t.streamId);
  }

  lemma StepOpens(t: Target, s: Sys, w: Witness, a: Action)
    requires Inv(t, s, w) && Enabled(t, s, a) && a.WatchOpens?
    ensures Inv(t, Step(t, s, a), w)
  {
  }

  /** What offering the store a record up to revision `i` leaves: a sound, complete journal with
      at most that record more, covered up to `i` if the write succeeded. */
  ghost predicate Offered(t: Target, s: Sys, w: Witness, log': seq<Record>, now: Time, i: int, reply: StoreReply,
                          w': Witness, r: Record)
  {
    var recs' := ForStream(log', t.streamId);
    && NulFreeLog(log') && Sound(t, s.history, recs', now, s.listClock, w') && Complete(t, recs')
    && AtMostAdds(Recs(t, s), recs', r)
    && w'.base == w.base && w.high <= w'.high <= Max(w.high, i) && (reply.Stored? ==> i <= w'.high)
    && (w'.marks == w.marks || w'.marks == w.marks + [w'.high])
  }

  /** Nothing is written: the write failed, or the key is known. */
  lemma OfferedNothing(t: Target, s: Sys, w: Witness, now: Time, i: int, reply: StoreReply, r: Record)
    requires Inv(t, s, w) && s.lastRV != "" && s.clock <= now && (reply.Stored? ==> i <= w.high)
    ensures Offered(t, s, w, s.log, now, i, reply, w, r)
  {
    ClockAdvances(t, s.history, Recs(t, s), s.clock, s.listClock, w, now);
  }

  /** The next change is written. */
  lemma OfferedChange(t: Target, s: Sys, w: Witness, e: nat, now: Time, reply: StoreReply)
    returns (w': Witness, r: Record)
    requires Inv(t, s, w) && Enabled(t, s, Delivers(e, now, reply)) && w.high < e
    ensures var rec := LiveRecord(t, s.history[e].change.value.w, ItemOf(s.history[e]), now);
            Offered(t, s, w, Append(s.log, rec, now), now, e, reply, w', r)
  {
    r := AppendToStream(s.log, LiveRecord(t, s.history[e].change.value.w, ItemOf(s.history[e]), now), now);
    NewLiveIdIsUnknown(t, s.history, Recs(t, s), s.listClock, w.high, e);
    w' := LiveKeepsSound(t, s.history, Recs(t, s), s.clock, s.listClock, w, e, r, now);
  }

  /** A change the journal holds is not written again. */
  lemma KnownChangeIsKept(t: Target, s: Sys, w: Witness, e: nat, now: Time, reply: StoreReply)
    requires Inv(t, s, w) && Enabled(t, s, Delivers(e, now, reply)) && e <= w.high
    ensures Append(s.log, LiveRecord(t, s.history[e].change.value.w, ItemOf(s.history[e]), now), now) == s.log
  {
    var _ := AppendToStream(s.log, LiveRecord(t, s.history[e].change.value.w, ItemOf(s.history[e]), now), now);
    assert StandsAfter(t, s.history, Recs(t, s), LastBaseline(Recs(t, s)), e);
    EventIdIsNotEmpty(t.streamId, RefFromObject(t, ItemOf(s.history[e])), s.history[e].change.value.w, 0);
  }

  lemma OfferLive(t: Target, s: Sys, w: Witness, e: nat, now: Time, reply: StoreReply)
    returns (w': Witness, r: Record)
    requires Inv(t, s, w) && Enabled(t, s, Delivers(e, now, reply))
    ensures var log' := Wrote(s.log, LiveRecord(t, s.history[e].change.value.w, ItemOf(s.history[e]), now), reply);
            Offered(t, s, w, log', now, e, reply, w', r)
  {
    w', r := w, LiveRecord(t, s.history[e].change.value.w, ItemOf(s.history[e]), now);
    if reply.Failed? && !reply.durable {
      OfferedNothing(t, s, w, now, e, reply, r);
    } else if e <= w.high {
      KnownChangeIsKept(t, s, w, e, now, reply);
      OfferedNothing(t, s, w, now, e, reply, r);
    } else {
      w', r := OfferedChange(t, s, w, e, now, reply);
    }
  }

  /** Offering the store one record adds at most that record to the stream. */
  ghost predicate AtMostAdds(recs: seq<Record>, recs': seq<Record>, r: Record) {
    recs' == recs || (recs' == recs + [r] && r.rtype != Baseline)
  }

  lemma OfferedCheckpoint(t: Target, s: Sys, w: Witness, b: nat, now: Time, reply: StoreReply)
    returns (w': Witness, r: Record)
    requires Inv(t, s, w) && Enabled(t, s, Bookmarks(b, now, reply))
    ensures Offered(t, s, w, Append(s.log, CheckpointRecord(t, s.history[b].text, now), now), now, b, reply, w', r)
  {
    var rv := s.history[b].text;
    r := AppendToStream(s.log, CheckpointRecord(t, rv, now), now);
    w' := CheckpointKeepsSound(t, s.history, Recs(t, s), s.clock, s.listClock, w, b, rv, r, now);
  }

  lemma OfferCheckpoint(t: Target, s: Sys, w: Witness, b: nat, now: Time, reply: StoreReply)
    returns (w': Witness, r: Record)
    requires Inv(t, s, w) && Enabled(t, s, Bookmarks(b, now, reply))
    ensures var log' := Wrote(s.log, CheckpointRecord(t, s.history[b].text, now), reply);
            Offered(t, s, w, log', now, b, reply, w', r)
  {
    if reply.Failed? && !reply.durable {
      w', r := w, CheckpointRecord(t, s.history[b].text, now);
      OfferedNothing(t, s, w, now, b, reply, r);
    } else {
      w', r := OfferedCheckpoint(t, s, w, b, now, reply);
    }
  }

  /** What offering a gap leaves: a sound journal, with the gap at its end if the write succeeded. */
  ghost predicate GapOffered(t: Target, s: Sys, w: Witness, now: Time, reply: StoreReply, w': Witness, r: Record) {
    var log' := Wrote(s.log, GapRecord(t, s.lastRV, now), reply);
    var recs, recs' := Recs(t, s), ForStream(log', t.streamId);
    && NulFreeLog(log') && Sound(t, s.history, recs', now, s.listClock, w')
    && AtMostAdds(recs, recs', r)
    && (reply.Stored? ==> recs' == recs + [r] && r.rtype == Gap)
    && w'.base == w.base && w'.high == w.high
    && (w'.marks == w.marks || w'.marks == w.marks + [w'.high])
  }

  lemma OfferGap(t: Target, s: Sys, w: Witness, now: Time, reply: StoreReply)
    returns (w': Witness, r: Record)
    requires Inv(t, s, w) && Enabled(t, s, SendsGone(now, reply))
    ensures GapOffered(t, s, w, now, reply, w', r)
  {
    r := AppendToStream(s.log, GapRecord(t, s.lastRV, now), now);
    w' := w;
    if reply.Failed? && !reply.durable {
      ClockAdvances(t, s.history, Recs(t, s), s.clock, s.listClock, w, now);
    } else {
      w' := GapKeepsSound(t, s.history, Recs(t, s), s.clock, s.listClock, w, s.lastRV, r, now);
    }
  }

  /** What the control state must show beside the journal for the invariant to hold again. */
  lemma Resumes(t: Target, s: Sys, w: Witness, s': Sys, w': Witness, r: Record)
    requires Inv(t, s, w) && s.session.Some?
    requires s'.history == s.history && s'.runStart == s.runStart && s'.listClock == s.listClock
    requires NulFreeLog(s'.log) && Sound(t, s.history, Recs(t, s'), s'.clock, s'.listClock, w')
    requires AtMostAdds(Recs(t, s), Recs(t, s'), r)
    requires OnTrack(t, s', w') && s'.lists == s.lists && w'.base == w.base
    requires s'.alive && s'.lastRV == "" ==> Recs(t, s') == Recs(t, s) + [r] && r.rtype == Gap
    ensures Inv(t, s', w')
  {
    if Recs(t, s') != Recs(t, s) {
      PairsGrow(Recs(t, s), s.runStart, r);
      LastBaselineSnoc(Recs(t, s), r);
    }
  }

  /** The collector is on track at revision `i`. */
  lemma TrackAt(t: Target, s: Sys, w: Witness, i: nat)
    requires GoodHistory(t, s.history) && i < |s.history| && s.lastRV == s.history[i].text
    requires s.alive && Complete(t, Recs(t, s)) && 0 <= w.base <= i <= w.high
    requires s.session.Some? && w.base <= s.session.value.start <= s.session.value.cursor <= w.high
    ensures OnTrack(t, s, w)
  {
    RevisionOfText(t, s.history, i);
  }

  lemma IntegersFollowRevisions(t: Target, h: History, i: nat, j: nat)
    requires GoodHistory(t, h) && i < |h| && j < |h| && ResourceVersionBefore(h[i].text, h[j].text)
    ensures i < j
  {
    assert j < i ==> InOrder(h, j, i);
  }

  lemma DeliverShape(t: Target, s: Sys, e: nat, now: Time, reply: StoreReply)
    requires Enabled(t, s, Delivers(e, now, reply)) && GoodHistory(t, s.history)
    ensures var log' := Wrote(s.log, LiveRecord(t, s.history[e].change.value.w, ItemOf(s.history[e]), now), reply);
            var se := s.session.value;
            Step(t, s, Delivers(e, now, reply)) ==
            if reply.Failed? then
              s.(log := log', alive := false, lastRV := "", session := None, clock := now)
            else
              s.(log := log', lastRV := s.history[e].text, clock := now,
                 session := Some(Session(se.start, Max(e, se.cursor), se.serving)))
    ensures s.history[e].text != ""
  {
    assert GoodRevision(t, s.history[e]);
  }

  /** What control needs of the journal after an event: it is complete up to there. */
  ghost predicate Reaches(t: Target, s: Sys, log': seq<Record>, w': Witness, e: int) {
    && Complete(t, ForStream(log', t.streamId))
    && s.alive && s.session.Some?
    && 0 <= w'.base <= s.session.value.start <= s.session.value.cursor <= w'.high && w'.base <= e <= w'.high
  }

  lemma DeliverTracks(t: Target, s: Sys, w': Witness, e: nat, now: Time, reply: StoreReply)
    requires e < |s.history| && s.history[e].change.Some?
    requires GoodHistory(t, s.history) && Enabled(t, s, Delivers(e, now, reply))
    requires var log' := Wrote(s.log, LiveRecord(t, s.history[e].change.value.w, ItemOf(s.history[e]), now), reply);
             reply.Stored? ==> Reaches(t, s, log', w', e)
    ensures OnTrack(t, Step(t, s, Delivers(e, now, reply)), w')
  {
    DeliverShape(t, s, e, now, reply);
    if reply.Stored? { TrackAt(t, Step(t, s, Delivers(e, now, reply)), w', e); }
  }

  lemma DeliveredKeepsInv(t: Target, s: Sys, w: Witness, e: nat, now: Time, reply: StoreReply, s': Sys, w': Witness,
                          r: Record)
    requires Enabled(t, s, Delivers(e, now, reply))
    requires s' == Step(t, s, Delivers(e, now, reply))
    requires var log' := Wrote(s.log, LiveRecord(t, s.history[e].change.value.w, ItemOf(s.history[e]), now), reply);
             Offered(t, s, w, log', now, e, reply, w', r)
    requires Inv(t, s, w)
    ensures Inv(t, s', w')
  {
    DeliverTracks(t, s, w', e, now, reply);
    DeliverShape(t, s, e, now, reply);
    Resumes(t, s, w, s', w', r);
  }

  lemma OneMarkFollows(w: Witness, w': Witness, a: Action)
    requires !a.ListReplies? && w'.base == w.base && w.high <= w'.high
    requires w'.marks == w.marks || w'.marks == w.marks + [w'.high]
    ensures Follows(w, w', a)
  {
  }

  lemma OfferedFollows(t: Target, s: Sys, w: Witness, log': seq<Record>, i: int, a: Action, reply: StoreReply,
                       now: Time, w': Witness, r: Record)
    requires !a.ListReplies? && Offered(t, s, w, log', now, i, reply, w', r)
    ensures Follows(w, w', a)
  {
    OneMarkFollows(w, w', a);
  }

  lemma StepDelivers(t: Target, s: Sys, w: Witness, a: Action) returns (w': Witness)
    requires Inv(t, s, w) && Enabled(t, s, a) && a.Delivers?
    ensures Inv(t, Step(t, s, a), w') && Follows(w, w', a)
  {
    var r;
    w', r := OfferLive(t, s, w, a.e, a.now, a.reply);
    var log' := Wrote(s.log, LiveRecord(t, s.history[a.e].change.value.w, ItemOf(s.history[a.e]), a.now), a.reply);
    OfferedFollows(t, s, w, log', a.e, a, a.reply, a.now, w', r);
    DeliveredKeepsInv(t, s, w, a.e, a.now, a.reply, Step(t, s, a), w', r);
  }

  lemma BookmarkShape(t: Target, s: Sys, b: nat, now: Time, reply: StoreReply)
    requires Enabled(t, s, Bookmarks(b, now, reply)) && GoodHistory(t, s.history) && s.lastRV != ""
    ensures var rv, se := s.history[b].text, s.session.value;
            var log' := Wrote(s.log, CheckpointRecord(t, rv, now), reply);
            var session' := Some(Session(se.start, Max(b, se.cursor), se.serving));
            Step(t, s, Bookmarks(b, now, reply)) ==
            if ResourceVersionBefore(rv, s.lastRV) then s.(clock := now, session := session')
            else if reply.Failed? then
              s.(log := log', alive := false, lastRV := "", session := None, clock := now)
            else s.(log := log', lastRV := rv, clock := now, session := session')
    ensures s.history[b].text != ""
  {
    assert GoodRevision(t, s.history[b]);
  }

  lemma BookmarkTracks(t: Target, s: Sys, w': Witness, b: nat, now: Time, reply: StoreReply)
    requires b < |s.history|
    requires GoodHistory(t, s.history) && Enabled(t, s, Bookmarks(b, now, reply)) && s.lastRV != ""
    requires !ResourceVersionBefore(s.history[b].text, s.lastRV)
    requires var log' := Wrote(s.log, CheckpointRecord(t, s.history[b].text, now), reply);
             reply.Stored? ==> Reaches(t, s, log', w', b)
    ensures OnTrack(t, Step(t, s, Bookmarks(b, now, reply)), w')
  {
    BookmarkShape(t, s, b, now, reply);
    if reply.Stored? { TrackAt(t, Step(t, s, Bookmarks(b, now, reply)), w', b); }
  }

  lemma BookmarkedKeepsInv(t: Target, s: Sys, w: Witness, b: nat, now: Time, reply: StoreReply, s': Sys, w': Witness,
                           r: Record)
    requires Enabled(t, s, Bookmarks(b, now, reply))
    requires s' == Step(t, s, Bookmarks(b, now, reply))
    requires !ResourceVersionBefore(s.history[b].text, s.lastRV)
    requires Offered(t, s, w, Wrote(s.log, CheckpointRecord(t, s.history[b].text, now), reply), now, b, reply, w', r)
    requires Inv(t, s, w)
    ensures Inv(t, s', w')
  {
    BookmarkTracks(t, s, w', b, now, reply);
    BookmarkShape(t, s, b, now, reply);
    Resumes(t, s, w, s', w', r);
  }

  lemma StepTakesBookmark(t: Target, s: Sys, w: Witness, a: Action) returns (w': Witness)
    requires a.Bookmarks? && Enabled(t, s, a)
    requires !ResourceVersionBefore(s.history[a.b].text, s.lastRV)
    requires Inv(t, s, w)
    ensures Inv(t, Step(t, s, a), w') && Follows(w, w', a)
  {
    var r;
    w', r := OfferCheckpoint(t, s, w, a.b, a.now, a.reply);
    var log' := Wrote(s.log, CheckpointRecord(t, s.history[a.b].text, a.now), a.reply);
    OfferedFollows(t, s, w, log', a.b, a, a.reply, a.now, w', r);
    BookmarkedKeepsInv(t, s, w, a.b, a.now, a.reply, Step(t, s, a), w', r);
  }

  /** A bookmark behind the last resource version is skipped: it lies behind what is
      journalled. */
  lemma StepSkipsBookmark(t: Target, s: Sys, w: Witness, a: Action, s': Sys)
    requires a.Bookmarks? && Enabled(t, s, a) && s' == Step(t, s, a)
    requires ResourceVersionBefore(s.history[a.b].text, s.lastRV)
    requires Inv(t, s, w)
    ensures Inv(t, s', w)
  {
    BookmarkShape(t, s, a.b, a.now, a.reply);
    RevisionOfIsRight(s.history, s.lastRV);
    IntegersFollowRevisions(t, s.history, a.b, RevisionOf(s.history, s.lastRV));
    ClockAdvances(t, s.history, Recs(t, s), s.clock, s.listClock, w, a.now);
    Resumes(t, s, w, s', w, BaselineRecord(t, "", a.now));
  }

  lemma StepBookmarks(t: Target, s: Sys, w: Witness, a: Action) returns (w': Witness)
    requires Inv(t, s, w) && Enabled(t, s, a) && a.Bookmarks?
    ensures Inv(t, Step(t, s, a), w') && Follows(w, w', a)
  {
    if ResourceVersionBefore(s.history[a.b].text, s.lastRV) {
      StepSkipsBookmark(t, s, w, a, Step(t, s, a));
      w' := w;
    } else {
      w' := StepTakesBookmark(t, s, w, a);
    }
  }

  lemma GoneShape(t: Target, s: Sys, now: Time, reply: StoreReply)
    requires Enabled(t, s, SendsGone(now, reply))
    ensures Step(t, s, SendsGone(now, reply)) ==
            s.(log := Wrote(s.log, GapRecord(t, s.lastRV, now), reply), alive := s.alive && reply.Stored?,
               lastRV := "", session := None, clock := now)
  {
  }

  lemma GoneKeepsInv(t: Target, s: Sys, w: Witness, a: Action, w': Witness, r: Record, s': Sys)
    requires a.SendsGone? && Enabled(t, s, a) && s' == Step(t, s, a)
    requires GapOffered(t, s, w, a.now, a.reply, w', r)
    requires Inv(t, s, w)
    ensures Inv(t, s', w') && Follows(w, w', a)
  {
    GoneShape(t, s, a.now, a.reply);
    Resumes(t, s, w, s', w', r);
    OneMarkFollows(w, w', a);
  }

  lemma StepGone(t: Target, s: Sys, w: Witness, a: Action) returns (w': Witness)
    requires Inv(t, s, w) && Enabled(t, s, a) && a.SendsGone?
    ensures Inv(t, Step(t, s, a), w') && Follows(w, w', a)
  {
    var r;
    w', r := OfferGap(t, s, w, a.now, a.reply);
    GoneKeepsInv(t, s, w, a, w', r, Step(t, s, a));
  }

  // ---------------------------------------------------------------- a list

  lemma {:induction false} SyntheticAt(t: Target, items: seq<Item>, now: Time, i: nat)
    requires i < |items|
    ensures |Synthetics(t, items, now)| == |items| && Synthetics(t, items, now)[i] == SyntheticRecord(t, items[i], now)
  {
    var n := |items| - 1;
    if i < n {
      SyntheticAt(t, items[..n], now, i);
    } else if n > 0 {
      SyntheticAt(t, items[..n], now, 0);
    }
  }

  lemma BatchAt(t: Target, listRV: string, items: seq<Item>, now: Time, i: nat)
    requires i <= |items|
    ensures var b := Batch(t, listRV, items, now);
            |b| == |items| + 1 && b[i] == if i == 0 then BaselineRecord(t, listRV, now)
                                          else SyntheticRecord(t, items[i - 1], now)
  {
    if i > 0 { SyntheticAt(t, items, now, i - 1); } else if items != [] { SyntheticAt(t, items, now, 0); }
  }

  /** Every record of a list's batch is new to the journal, unchanged objects included. */
  lemma BatchIsFresh(t: Target, h: History, recs: seq<Record>, listClock: Time, high: int, listRV: string,
                     items: seq<Item>, now: Time)
    requires GoodHistory(t, h) && IdsExplained(t, h, recs, listClock, high) && EPOCH <= listClock < now
    requires forall i :: 0 <= i < |items| ==> GoodItem(t, items[i])
    requires forall i, j :: 0 <= i < j < |items| ==> IdOf(t, items[i]) != IdOf(t, items[j])
    ensures FreshKeys(recs, Batch(t, listRV, items, now))
  {
    var b := Batch(t, listRV, items, now);
    BatchAt(t, listRV, items, now, 0);
    forall i | 0 <= i < |b| ensures !Known(recs, b[i].eventId) {
      BatchAt(t, listRV, items, now, i);
      if i > 0 { NewSyntheticIdIsUnknown(t, h, recs, listClock, high, items[i - 1], now); }
    }
    forall i, j | 0 <= i < j < |b| && b[i].eventId != "" ensures b[i].eventId != b[j].eventId {
      BatchAt(t, listRV, items, now, i);
      BatchAt(t, listRV, items, now, j);
      if b[i].eventId == b[j].eventId { SyntheticIdsDiffer(t, items[i - 1], now, items[j - 1], now); }
    }
  }

  lemma BatchFields(t: Target, listRV: string, items: seq<Item>, now: Time)
    ensures var b := Batch(t, listRV, items, now);
            forall i :: 0 <= i < |b| ==> b[i].streamId == t.streamId && b[i].observedAt == now
  {
    var b := Batch(t, listRV, items, now);
    BatchAt(t, listRV, items, now, 0);
    forall i | 0 <= i < |b| ensures b[i].streamId == t.streamId && b[i].observedAt == now {
      BatchAt(t, listRV, items, now, i);
    }
  }

  lemma StoredAsBatch(t: Target, listRV: string, items: seq<Item>, now: Time, ys: seq<Record>)
    requires SameRecords(ys, Batch(t, listRV, items, now))
    ensures StoredBatch(t, listRV, items, now, ys)
    ensures ys[0].rtype == Baseline && ys[0].resource.resourceVersion == listRV
    ensures forall i :: 0 < i < |ys| ==> ys[i].rtype != Baseline
  {
    var b := Batch(t, listRV, items, now);
    BatchAt(t, listRV, items, now, 0);
    assert SameBut(ys[0], b[0]);
    forall i | 0 <= i < |items| ensures SameBut(ys[i + 1], SyntheticRecord(t, items[i], now)) {
      BatchAt(t, listRV, items, now, i + 1);
      assert SameBut(ys[i + 1], b[i + 1]);
    }
    forall i | 0 < i < |ys| ensures ys[i].rtype != Baseline {
      assert SameBut(ys[i - 1 + 1], SyntheticRecord(t, items[i - 1], now));
    }
  }

  /** What a stored list leaves: its batch after the stream's records, and the guarantee restarted
      at its revision. */
  ghost predicate ListStored(t: Target, s: Sys, w: Witness, a: Action, listRV: string, w': Witness, ys: seq<Record>)
    requires a.ListReplies?
  {
    var log' := Play(s.log, Deliveries(Batch(t, listRV, a.items, a.now), a.now));
    var recs := Recs(t, s);
    && NulFreeLog(log') && ForStream(log', t.streamId) == recs + ys
    && StoredBatch(t, listRV, a.items, a.now, ys)
    && Sound(t, s.history, recs + ys, a.now, a.now, w') && Complete(t, recs + ys)
    && w' == Witness(a.r, a.r, w.marks + Repeat(|ys|, a.r))
    && LastBaseline(recs + ys) == |recs| && (recs + ys)[|recs|].resource.resourceVersion == listRV
    && forall i :: 0 < i < |ys| ==> ys[i].rtype != Baseline
  }

  /** The journal after a list is written. */
  lemma OfferList(t: Target, s: Sys, w: Witness, a: Action, listRV: string)
    returns (w': Witness, ys: seq<Record>)
    requires Inv(t, s, w) && Enabled(t, s, a) && a.ListReplies?
    requires listRV == if a.named then s.history[a.r].text else ""
    ensures ListStored(t, s, w, a, listRV, w', ys)
  {
    ListedItemsAreGood(t, s.history, a.r, a.items);
    BatchIsFresh(t, s.history, Recs(t, s), s.listClock, w.high, listRV, a.items, a.now);
    BatchFields(t, listRV, a.items, a.now);
    ys := PlayBatch(s.log, t.streamId, Batch(t, listRV, a.items, a.now), a.now);
    StoredAsBatch(t, listRV, a.items, a.now, ys);
    w' := ListKeepsSound(t, s.history, Recs(t, s), s.clock, s.listClock, w, a.r, listRV, a.items, ys, a.now);
    BatchReduces(t, Recs(t, s), listRV, a.items, a.now, ys);
  }

  lemma ListClockAdvances(t: Target, h: History, recs: seq<Record>, clock: Time, listClock: Time, w: Witness, now: Time)
    requires Sound(t, h, recs, clock, listClock, w) && clock <= now && listClock <= now
    ensures Sound(t, h, recs, now, now, w)
  {
    forall i | 0 <= i < |recs| && recs[i].eventId != ""
      ensures IsLive(t, h, recs[i].eventId, w.high) || IsSynthetic(t, recs[i].eventId, now)
    {
      if IsSynthetic(t, recs[i].eventId, listClock) {
        var it, at :| GoodItem(t, it) && EPOCH < at <= listClock && recs[i].eventId == SyntheticId(t, it, at);
      }
    }
  }

  lemma ListShape(t: Target, s: Sys, a: Action, listRV: string)
    requires Enabled(t, s, a) && a.ListReplies? && listRV == if a.named then s.history[a.r].text else ""
    ensures Step(t, s, a) ==
            s.(log := if a.reply.Stored? || a.reply.durable
                      then Play(s.log, Deliveries(Batch(t, listRV, a.items, a.now), a.now)) else s.log,
               lastRV := if a.reply.Stored? then listRV else "", alive := a.reply.Stored?,
               clock := a.now, listClock := a.now, lists := if Relists(a) then s.lists + [a.r] else s.lists)
  {
  }

  lemma ListTracks(t: Target, s: Sys, a: Action, listRV: string, w': Witness, recs': seq<Record>)
    requires GoodHistory(t, s.history) && s.session.None?
    requires Enabled(t, s, a) && a.ListReplies? && listRV == if a.named then s.history[a.r].text else ""
    requires a.reply.Stored? ==> Recs(t, Step(t, s, a)) == recs' && Complete(t, recs')
    requires w'.base == a.r && w'.high == a.r
    ensures OnTrack(t, Step(t, s, a), w')
  {
    ListShape(t, s, a, listRV);
    RevisionOfText(t, s.history, a.r);
  }

  /** The list's batch is not stored. */
  lemma StepListsNothing(t: Target, s: Sys, w: Witness, a: Action)
    requires Inv(t, s, w) && Enabled(t, s, a) && a.ListReplies? && a.reply.Failed? && !a.reply.durable
    ensures Inv(t, Step(t, s, a), w)
  {
    ListShape(t, s, a, if a.named then s.history[a.r].text else "");
    ListClockAdvances(t, s.history, Recs(t, s), s.clock, s.listClock, w, a.now);
  }

  /** What a relist must leave for the invariant to hold again. */
  lemma {:induction false} Relisted(t: Target, s: Sys, w: Witness, r: nat, listRV: string, ys: seq<Record>, s': Sys,
                                    w': Witness)
    requires Inv(t, s, w) && s.alive && s.lastRV == ""
    requires s'.history == s.history && s'.runStart == s.runStart && s'.lists == s.lists + [r] && w'.base == r
    requires NulFreeLog(s'.log) && Recs(t, s') == Recs(t, s) + ys
    requires Sound(t, s'.history, Recs(t, s) + ys, s'.clock, s'.listClock, w') && OnTrack(t, s', w')
    requires ys != [] && forall i :: 0 < i < |ys| ==> ys[i].rtype != Baseline
    requires LastBaseline(Recs(t, s) + ys) == |Recs(t, s)| && ys[0].resource.resourceVersion == listRV
    requires s'.lastRV != "" ==> listRV != ""
    requires s'.alive && s'.lastRV == "" ==> listRV == ""
    ensures Inv(t, s', w')
  {
    assert (Recs(t, s) + ys)[|Recs(t, s)|] == ys[0];
    PairsGrowByList(Recs(t, s), s.runStart, ys);
  }

  /** The list's batch is stored, whether or not the store says so. */
  lemma StepListsBatch(t: Target, s: Sys, w: Witness, a: Action, listRV: string, w': Witness, ys: seq<Record>, s': Sys)
    requires a.ListReplies? && Relists(a) && Enabled(t, s, a) && s' == Step(t, s, a)
    requires listRV == if a.named then s.history[a.r].text else ""
    requires ListStored(t, s, w, a, listRV, w', ys)
    requires Inv(t, s, w)
    ensures Inv(t, s', w')
  {
    ListShape(t, s, a, listRV);
    ListTracks(t, s, a, listRV, w', Recs(t, s) + ys);
    assert (Recs(t, s) + ys)[|Recs(t, s)|] == ys[0];
    Relisted(t, s, w, a.r, listRV, ys, s', w');
  }

  lemma StepLists(t: Target, s: Sys, w: Witness, a: Action) returns (w': Witness)
    requires Inv(t, s, w) && Enabled(t, s, a) && a.ListReplies?
    ensures Inv(t, Step(t, s, a), w') && Follows(w, w', a)
  {
    if a.reply.Failed? && !a.reply.durable {
      w' := w;
      StepListsNothing(t, s, w, a);
    } else {
      var listRV := if a.named then s.history[a.r].text else "";
      var ys;
      w', ys := OfferList(t, s, w, a, listRV);
      StepListsBatch(t, s, w, a, listRV, w', ys, Step(t, s, a));
    }
  }

  // ---------------------------------------------------------------- all runs

  lemma StepKeepsInv(t: Target, s: Sys, w: Witness, a: Action) returns (w': Witness)
    requires Inv(t, s, w) && Enabled(t, s, a)
    ensures Inv(t, Step(t, s, a), w') && Follows(w, w', a)
  {
    w' := w;
    match a {
      case ServerWrites(rev) => StepWrites(t, s, w, a);
      case OtherStream(rec, at) => StepElsewhere(t, s, w, a);
      case ListReplies(r, named, items, now, reply) => w' := StepLists(t, s, w, a);
      case WatchOpens => StepOpens(t, s, w, a);
      case Delivers(e, now, reply) => w' := StepDelivers(t, s, w, a);
      case Bookmarks(b, now, reply) => w' := StepBookmarks(t, s, w, a);
      case SendsGone(now, reply) => w' := StepGone(t, s, w, a);
      case _ =>
    }
  }
}
