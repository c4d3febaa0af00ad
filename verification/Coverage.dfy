/** What a journal guarantees about its server. */
module Coverage {
  import opened Text
  import opened Events
  import opened Identity
  import opened Reducer
  import opened Watch
  import opened Server

  // The steps of the protocol (module Protocol) each add to one stream's journal; here it is shown
  // that each kind of addition keeps the guarantee.

  /** Known to the proof only: `base` is the revision of the last list, `high` the revision
      up to which the journal is complete since then, and `marks[k]` the revision that the
      first `k` records show. -1 stands for none. */
  datatype Witness = Witness(base: int, high: int, marks: seq<int>)

  // ---------------------------------------------------------------- the parts of the guarantee

  predicate Complete(t: Target, recs: seq<Record>) { Reported(Reduce(t.streamId, recs)) }

  /** A time cut can fall after the first `k` records. */
  predicate Boundary(recs: seq<Record>, k: nat)
    requires k <= |recs|
  {
    k == 0 || k == |recs| || recs[k - 1].observedAt < recs[k].observedAt
  }

  ghost predicate ShowsRevision(t: Target, h: History, recs: seq<Record>, r: int) {
    0 <= r < |h| && Agrees(t, Reduce(t.streamId, recs).states, CollAt(t, h, r))
  }

  /** Every complete cut shows the collection at the revision marked for it. */
  ghost predicate Marked(t: Target, h: History, recs: seq<Record>, w: Witness) {
    && |w.marks| == |recs| + 1 && w.marks[|recs|] == w.high
    && forall k :: 0 <= k <= |recs| && Boundary(recs, k) && Complete(t, recs[..k]) ==>
         ShowsRevision(t, h, recs[..k], w.marks[k])
  }

  ghost predicate InTime(recs: seq<Record>, clock: Time) {
    && (forall i :: 0 <= i < |recs| ==> EPOCH < recs[i].observedAt <= clock)
    && (forall i, j :: 0 <= i < j < |recs| ==> recs[i].observedAt <= recs[j].observedAt)
  }

  function LiveIdAt(t: Target, h: History, e: nat): string
    requires e < |h| && h[e].change.Some?
  {
    LiveId(t, h[e].change.value.w, ItemOf(h[e]))
  }

  ghost predicate IsLive(t: Target, h: History, id: string, high: int) {
    exists e: nat :: e < |h| && e <= high && h[e].change.Some? && id == LiveIdAt(t, h, e)
  }

  ghost predicate IsSynthetic(t: Target, id: string, listClock: Time) {
    exists it: Item, now: Time :: GoodItem(t, it) && EPOCH < now <= listClock && id == SyntheticId(t, it, now)
  }

  ghost predicate IdsExplained(t: Target, h: History, recs: seq<Record>, listClock: Time, high: int) {
    forall i :: 0 <= i < |recs| && recs[i].eventId != "" ==>
      IsLive(t, h, recs[i].eventId, high) || IsSynthetic(t, recs[i].eventId, listClock)
  }

  /** `r` is `s` as the store keeps it, under some ingest number. */
  predicate SameBut(r: Record, s: Record) { r == s.(ingestSeq := r.ingestSeq) }

  /** `r` is the journal's live record of change `e`. */
  predicate Carries(t: Target, h: History, e: nat, r: Record)
    requires e < |h| && h[e].change.Some?
  {
    SameBut(r, LiveRecord(t, h[e].change.value.w, ItemOf(h[e]), r.observedAt))
  }

  /** Change `e` is journalled after place `b`. */
  ghost predicate StandsAfter(t: Target, h: History, recs: seq<Record>, b: int, e: nat)
    requires e < |h| && h[e].change.Some?
  {
    exists i: nat :: b < i < |recs| && Carries(t, h, e, recs[i])
  }

  /** No loss: every change in (base, high] is journaled after the last BASELINE. */
  ghost predicate NothingLost(t: Target, h: History, recs: seq<Record>, base: int, high: int) {
    forall e: nat :: e < |h| && base < e <= high && h[e].change.Some? ==>
      StandsAfter(t, h, recs, LastBaseline(recs), e)
  }

  /** `base` is the revision the last BASELINE names, if it names one. */
  ghost predicate BaseNamed(h: History, recs: seq<Record>, base: int) {
    var b := LastBaseline(recs);
    b >= 0 ==>
      && 0 <= base < |h|
      && (recs[b].resource.resourceVersion == "" || recs[b].resource.resourceVersion == h[base].text)
  }

  /** Every record is one a collector writes; an event carries a payload and a plain name. */
  predicate ShapedRecord(t: Target, r: Record) {
    && r.clusterId == t.clusterId && r.streamId == t.streamId
    && r.rtype in {Event, Baseline, Gap, Checkpoint}
    && (r.rtype == Event ==>
          && r.watchType in {Added, Modified, Deleted} && r.payload != ""
          && Lacks(r.resource.namespace, '/') && Lacks(r.resource.name, '/'))
  }

  ghost predicate Shaped(t: Target, recs: seq<Record>) {
    forall i :: 0 <= i < |recs| ==> ShapedRecord(t, recs[i])
  }

  ghost predicate Sound(t: Target, h: History, recs: seq<Record>, clock: Time, listClock: Time, w: Witness) {
    && GoodHistory(t, h) && Lacks(t.streamId, NUL)
    && EPOCH <= listClock <= clock
    && -1 <= w.base <= w.high < |h|
    && InTime(recs, clock)
    && IdsExplained(t, h, recs, listClock, w.high)
    && NothingLost(t, h, recs, w.base, w.high)
    && BaseNamed(h, recs, w.base)
    && Shaped(t, recs)
    && Marked(t, h, recs, w)
  }

  // ---------------------------------------------------------------- keys

  lemma LiveIdsDiffer(t: Target, h: History, a: nat, b: nat)
    requires GoodHistory(t, h)
    requires a < |h| && b < |h| && h[a].change.Some? && h[b].change.Some?
    requires LiveIdAt(t, h, a) == LiveIdAt(t, h, b)
    ensures a == b
  {
    EventIdIsInjective(t.streamId, RefFromObject(t, ItemOf(h[a])), h[a].change.value.w, 0,
                       t.streamId, RefFromObject(t, ItemOf(h[b])), h[b].change.value.w, 0);
    assert h[a].text == h[b].text;
    assert a < b ==> InOrder(h, a, b);
    assert b < a ==> InOrder(h, b, a);
  }

  lemma LiveIsNotSynthetic(t: Target, h: History, e: nat, it: Item, now: Time)
    requires GoodHistory(t, h) && e < |h| && h[e].change.Some? && GoodItem(t, it) && now > EPOCH
    ensures LiveIdAt(t, h, e) != SyntheticId(t, it, now)
  {
    if LiveIdAt(t, h, e) == SyntheticId(t, it, now) {
      EventIdIsInjective(t.streamId, RefFromObject(t, ItemOf(h[e])), h[e].change.value.w, 0,
                         t.streamId, RefFromObject(t, it), Added, UnixNano(now));
    }
  }

  lemma SyntheticIdsDiffer(t: Target, a: Item, ta: Time, b: Item, tb: Time)
    requires GoodItem(t, a) && GoodItem(t, b) && SyntheticId(t, a, ta) == SyntheticId(t, b, tb)
    ensures ta == tb && IdOf(t, a) == IdOf(t, b)
  {
    EventIdIsInjective(t.streamId, RefFromObject(t, a), Added, UnixNano(ta),
                       t.streamId, RefFromObject(t, b), Added, UnixNano(tb));
  }

  predicate Known(recs: seq<Record>, id: string) {
    id != "" && exists i | 0 <= i < |recs| :: recs[i].eventId == id
  }

  /** A change beyond `high` has a key the journal does not hold. */
  lemma NewLiveIdIsUnknown(t: Target, h: History, recs: seq<Record>, listClock: Time, high: int, e: nat)
    requires GoodHistory(t, h) && IdsExplained(t, h, recs, listClock, high)
    requires high < e < |h| && h[e].change.Some?
    ensures !Known(recs, LiveIdAt(t, h, e))
  {
    var id := LiveIdAt(t, h, e);
    if Known(recs, id) {
      var i :| 0 <= i < |recs| && recs[i].eventId == id;
      if IsLive(t, h, id, high) {
        var a: nat :| a < |h| && a <= high && h[a].change.Some? && id == LiveIdAt(t, h, a);
        LiveIdsDiffer(t, h, a, e);
      } else {
        var it: Item, now: Time :| GoodItem(t, it) && EPOCH < now <= listClock && id == SyntheticId(t, it, now);
        LiveIsNotSynthetic(t, h, e, it, now);
      }
    }
  }

  /** A list at a new time gives every object a key the journal does not hold, so an
      unchanged object that is listed again survives deduplication. */
  lemma NewSyntheticIdIsUnknown(t: Target, h: History, recs: seq<Record>, listClock: Time, high: int, it: Item,
                                now: Time)
    requires GoodHistory(t, h) && IdsExplained(t, h, recs, listClock, high)
    requires GoodItem(t, it) && EPOCH <= listClock < now
    ensures !Known(recs, SyntheticId(t, it, now))
  {
    var id := SyntheticId(t, it, now);
    if Known(recs, id) {
      var i :| 0 <= i < |recs| && recs[i].eventId == id;
      if IsLive(t, h, id, high) {
        var a: nat :| a < |h| && a <= high && h[a].change.Some? && id == LiveIdAt(t, h, a);
        LiveIsNotSynthetic(t, h, a, it, now);
      } else {
        var it', now' :| GoodItem(t, it') && EPOCH < now' <= listClock && id == SyntheticId(t, it', now');
        SyntheticIdsDiffer(t, it, now, it', now');
      }
    }
  }

  // ---------------------------------------------------------------- growing the journal

  function Repeat(n: nat, x: int): seq<int> { seq(n, _ => x) }

  /** A batch with one timestamp adds one cut: after all of it. */
  lemma MarkedGrows(t: Target, h: History, recs: seq<Record>, w: Witness, xs: seq<Record>, clock: Time, now: Time,
                    w': Witness)
    requires Marked(t, h, recs, w) && InTime(recs, clock) && clock <= now
    requires xs != [] && forall i :: 0 <= i < |xs| ==> xs[i].observedAt == now
    requires w'.marks == w.marks + Repeat(|xs|, w'.high)
    requires Complete(t, recs + xs) ==> ShowsRevision(t, h, recs + xs, w'.high)
    ensures Marked(t, h, recs + xs, w')
  {
    var all := recs + xs;
    forall k | 0 <= k <= |all| && Boundary(all, k) && Complete(t, all[..k])
      ensures ShowsRevision(t, h, all[..k], w'.marks[k])
    {
      if k <= |recs| {
        assert all[..k] == recs[..k];
        assert Boundary(recs, k);
      } else {
        assert k == |all| && all[..k] == all;
      }
    }
  }

  lemma InTimeGrows(recs: seq<Record>, xs: seq<Record>, clock: Time, now: Time)
    requires InTime(recs, clock) && clock <= now && EPOCH < now
    requires forall i :: 0 <= i < |xs| ==> xs[i].observedAt == now
    ensures InTime(recs + xs, now)
  {
  }

  lemma StandsStill(t: Target, h: History, recs: seq<Record>, r: Record, b: int, e: nat)
    requires e < |h| && h[e].change.Some? && StandsAfter(t, h, recs, b, e)
    ensures StandsAfter(t, h, recs + [r], b, e)
  {
    var i: nat :| b < i < |recs| && Carries(t, h, e, recs[i]);
    assert Carries(t, h, e, (recs + [r])[i]);
  }

  lemma {:induction false} LastBaselineSnoc(recs: seq<Record>, r: Record)
    ensures LastBaseline(recs + [r]) == if r.rtype == Baseline then |recs| else LastBaseline(recs)
  {
    assert (recs + [r])[..|recs|] == recs;
  }

  lemma BaseNamedGrows(h: History, recs: seq<Record>, base: int, r: Record)
    requires BaseNamed(h, recs, base) && r.rtype != Baseline
    ensures BaseNamed(h, recs + [r], base)
  {
    LastBaselineSnoc(recs, r);
  }

  /** The journal keeps its promise of no loss when the changes up to `high'` are the ones
      up to `high` and, at most, the one the new record carries. */
  lemma {:induction false} NothingLostGrows(t: Target, h: History, recs: seq<Record>, base: int, high: int, r: Record,
                                            high': int)
    requires NothingLost(t, h, recs, base, high) && r.rtype != Baseline
    requires LastBaseline(recs) < |recs|
    requires forall e: nat :: e < |h| && high < e <= high' && h[e].change.Some? ==> Carries(t, h, e, r)
    ensures NothingLost(t, h, recs + [r], base, high')
  {
    LastBaselineSnoc(recs, r);
    forall e: nat | e < |h| && base < e <= high' && h[e].change.Some?
      ensures StandsAfter(t, h, recs + [r], LastBaseline(recs + [r]), e)
    {
      if e <= high {
        StandsStill(t, h, recs, r, LastBaseline(recs), e);
      } else {
        assert Carries(t, h, e, (recs + [r])[|recs|]);
      }
    }
  }

  lemma IdsExplainedGrows(t: Target, h: History, recs: seq<Record>, listClock: Time, high: int, r: Record, high': int)
    requires IdsExplained(t, h, recs, listClock, high) && high <= high'
    requires r.eventId != "" ==> IsLive(t, h, r.eventId, high')
    ensures IdsExplained(t, h, recs + [r], listClock, high')
  {
    var all := recs + [r];
    forall i | 0 <= i < |all| && all[i].eventId != ""
      ensures IsLive(t, h, all[i].eventId, high') || IsSynthetic(t, all[i].eventId, listClock)
    {
      if i < |recs| && IsLive(t, h, recs[i].eventId, high) {
        var e: nat :| e < |h| && e <= high && h[e].change.Some? && recs[i].eventId == LiveIdAt(t, h, e);
        assert IsLive(t, h, all[i].eventId, high');
      }
    }
  }

  // ---------------------------------------------------------------- each kind of record

  /** The live record of a change does to the states what the change does to the collection. */
  lemma ChangeShows(t: Target, h: History, states: map<string, ObjectState>, c: Collection, e: nat, r: Record,
                    now: Time)
    requires GoodHistory(t, h) && e < |h| && h[e].change.Some? && Agrees(t, states, c)
    requires SameBut(r, LiveRecord(t, h[e].change.value.w, ItemOf(h[e]), now))
    ensures IsDelete(r) || IsUpsert(r)
    ensures Agrees(t, if IsDelete(r) then states - {r.resource.ObjectKey()}
                      else states[r.resource.ObjectKey() := StateOf(t.streamId, r)], ApplyChange(t, c, h[e]))
  {
    var it := ItemOf(h[e]);
    assert GoodItem(t, it);
    var id := IdOf(t, it);
    assert KeyOfId(id) == r.resource.ObjectKey();
    if IsDelete(r) {
      AgreesRemove(t, states, c, id);
    } else {
      AgreesPut(t, states, c, id, StateOf(t.streamId, r), it);
    }
  }

  lemma ShowsChange(t: Target, h: History, states: map<string, ObjectState>, high: nat, e: nat, r: Record, now: Time)
    requires GoodHistory(t, h) && high < e < |h| && Quiet(h, high, e - 1) && h[e].change.Some?
    requires Agrees(t, states, CollAt(t, h, high))
    requires SameBut(r, LiveRecord(t, h[e].change.value.w, ItemOf(h[e]), now))
    ensures IsDelete(r) || IsUpsert(r)
    ensures Agrees(t, if IsDelete(r) then states - {r.resource.ObjectKey()}
                      else states[r.resource.ObjectKey() := StateOf(t.streamId, r)], CollAt(t, h, e))
  {
    NextChange(t, h, high, e);
    ChangeShows(t, h, states, CollAt(t, h, high), e, r, now);
  }

  lemma LiveShows(t: Target, h: History, recs: seq<Record>, w: Witness, e: nat, r: Record, now: Time)
    requires GoodHistory(t, h) && Marked(t, h, recs, w) && Complete(t, recs)
    requires -1 <= w.high < e < |h| && h[e].change.Some? && Quiet(h, w.high, e - 1)
    requires SameBut(r, LiveRecord(t, h[e].change.value.w, ItemOf(h[e]), now))
    ensures ShowsRevision(t, h, recs + [r], e) && Complete(t, recs + [r])
  {
    assert recs[..|recs|] == recs;
    assert ShowsRevision(t, h, recs, w.high);
    ReduceSnoc(t.streamId, recs, r);
    ShowsChange(t, h, Reduce(t.streamId, recs).states, w.high, e, r, now);
  }

  lemma LiveIsShaped(t: Target, h: History, e: nat, r: Record, now: Time)
    requires GoodHistory(t, h) && e < |h| && h[e].change.Some?
    requires SameBut(r, LiveRecord(t, h[e].change.value.w, ItemOf(h[e]), now))
    ensures ShapedRecord(t, r)
  {
    assert GoodRevision(t, h[e]);
  }

  /** Journalling the next change keeps the guarantee, one change further. */
  lemma LiveKeepsSound(t: Target, h: History, recs: seq<Record>, clock: Time, listClock: Time, w: Witness, e: nat,
                       r: Record, now: Time) returns (w': Witness)
    requires Sound(t, h, recs, clock, listClock, w) && Complete(t, recs)
    requires w.high < e < |h| && h[e].change.Some? && Quiet(h, w.high, e - 1)
    requires clock <= now && EPOCH < now
    requires SameBut(r, LiveRecord(t, h[e].change.value.w, ItemOf(h[e]), now))
    ensures w' == Witness(w.base, e, w.marks + [e])
    ensures Sound(t, h, recs + [r], now, listClock, w') && Complete(t, recs + [r])
  {
    w' := Witness(w.base, e, w.marks + [e]);
    LiveShows(t, h, recs, w, e, r, now);
    MarkedGrows(t, h, recs, w, [r], clock, now, w');
    InTimeGrows(recs, [r], clock, now);
    BaseNamedGrows(h, recs, w.base, r);
    NothingLostGrows(t, h, recs, w.base, w.high, r, e);
    assert IsLive(t, h, r.eventId, e);
    IdsExplainedGrows(t, h, recs, listClock, w.high, r, e);
    LiveIsShaped(t, h, e, r, now);
  }

  /** A bookmark moves the complete part forward over revisions that change nothing here. */
  lemma CheckpointKeepsSound(t: Target, h: History, recs: seq<Record>, clock: Time, listClock: Time, w: Witness, b: nat,
                             rv: string, r: Record, now: Time) returns (w': Witness)
    requires Sound(t, h, recs, clock, listClock, w) && Complete(t, recs)
    requires b < |h| && Quiet(h, w.high, b)
    requires clock <= now && EPOCH < now
    requires SameBut(r, CheckpointRecord(t, rv, now))
    ensures w' == Witness(w.base, if b > w.high then b else w.high, w.marks + [if b > w.high then b else w.high])
    ensures Sound(t, h, recs + [r], now, listClock, w') && Complete(t, recs + [r])
  {
    var high' := if b > w.high then b else w.high;
    w' := Witness(w.base, high', w.marks + [high']);
    assert recs[..|recs|] == recs;
    assert ShowsRevision(t, h, recs, w.high);
    QuietKeepsCollection(t, h, w.high, high');
    ReduceSnoc(t.streamId, recs, r);
    MarkedGrows(t, h, recs, w, [r], clock, now, w');
    InTimeGrows(recs, [r], clock, now);
    BaseNamedGrows(h, recs, w.base, r);
    NothingLostGrows(t, h, recs, w.base, w.high, r, high');
    IdsExplainedGrows(t, h, recs, listClock, w.high, r, high');
  }

  /** A GAP makes no claim, and takes none back about earlier cuts. */
  lemma GapKeepsSound(t: Target, h: History, recs: seq<Record>, clock: Time, listClock: Time, w: Witness, rv: string,
                      r: Record, now: Time) returns (w': Witness)
    requires Sound(t, h, recs, clock, listClock, w)
    requires clock <= now && EPOCH < now
    requires SameBut(r, GapRecord(t, rv, now))
    ensures w' == Witness(w.base, w.high, w.marks + [w.high])
    ensures Sound(t, h, recs + [r], now, listClock, w') && !Complete(t, recs + [r])
  {
    w' := Witness(w.base, w.high, w.marks + [w.high]);
    ReduceSnoc(t.streamId, recs, r);
    MarkedGrows(t, h, recs, w, [r], clock, now, w');
    InTimeGrows(recs, [r], clock, now);
    BaseNamedGrows(h, recs, w.base, r);
    NothingLostGrows(t, h, recs, w.base, w.high, r, w.high);
    IdsExplainedGrows(t, h, recs, listClock, w.high, r, w.high);
  }

  // ---------------------------------------------------------------- a list

  /** `xs` is the batch of a list as the store keeps it. */
  ghost predicate StoredBatch(t: Target, listRV: string, items: seq<Item>, now: Time, xs: seq<Record>) {
    && |xs| == |items| + 1
    && SameBut(xs[0], BaselineRecord(t, listRV, now))
    && forall i :: 0 <= i < |items| ==> SameBut(xs[i + 1], SyntheticRecord(t, items[i], now))
  }

  lemma {:induction false} BatchReduces(t: Target, recs: seq<Record>, listRV: string, items: seq<Item>, now: Time,
                                        xs: seq<Record>)
    requires StoredBatch(t, listRV, items, now, xs)
    requires forall i :: 0 <= i < |items| ==> GoodItem(t, items[i])
    ensures Complete(t, recs + xs)
    ensures Agrees(t, Reduce(t.streamId, recs + xs).states, ItemsMap(t, items))
    ensures LastBaseline(recs + xs) == |recs|
  {
    var n := |items|;
    var last := xs[n];
    assert recs + xs == (recs + xs[..n]) + [last];
    ReduceSnoc(t.streamId, recs + xs[..n], last);
    LastBaselineSnoc(recs + xs[..n], last);
    if n == 0 {
      assert recs + xs[..0] == recs;
    } else {
      var it := items[n - 1];
      assert SameBut(xs[n - 1 + 1], SyntheticRecord(t, it, now));
      BatchReduces(t, recs, listRV, items[..n - 1], now, xs[..n]);
      var red := Reduce(t.streamId, recs + xs[..n]);
      assert IsUpsert(last);
      assert KeyOfId(IdOf(t, it)) == last.resource.ObjectKey();
      AgreesPut(t, red.states, ItemsMap(t, items[..n - 1]), IdOf(t, it), StateOf(t.streamId, last), it);
    }
  }

  /** No live key the journal holds names a change after revision `r`. */
  ghost predicate NoLiveAfter(t: Target, h: History, recs: seq<Record>, r: int) {
    forall e: nat :: e < |h| && r < e && h[e].change.Some? ==> !Known(recs, LiveIdAt(t, h, e))
  }

  lemma ListExplainsIds(t: Target, h: History, recs: seq<Record>, listClock: Time, high: int, r: nat, listRV: string,
                        items: seq<Item>, now: Time, xs: seq<Record>)
    requires IdsExplained(t, h, recs, listClock, high) && NoLiveAfter(t, h, recs, r)
    requires EPOCH <= listClock < now && StoredBatch(t, listRV, items, now, xs)
    requires forall i :: 0 <= i < |items| ==> GoodItem(t, items[i])
    ensures IdsExplained(t, h, recs + xs, now, r)
  {
    var all := recs + xs;
    forall i | 0 <= i < |all| && all[i].eventId != ""
      ensures IsLive(t, h, all[i].eventId, r) || IsSynthetic(t, all[i].eventId, now)
    {
      var id := all[i].eventId;
      if i < |recs| {
        assert Known(recs, id);
        if IsLive(t, h, id, high) {
          var e: nat :| e < |h| && e <= high && h[e].change.Some? && id == LiveIdAt(t, h, e);
          assert IsLive(t, h, id, r);
        } else {
          var it, now' :| GoodItem(t, it) && EPOCH < now' <= listClock && id == SyntheticId(t, it, now');
          assert IsSynthetic(t, id, now);
        }
      } else if i > |recs| {
        var it := items[i - |recs| - 1];
        assert SameBut(xs[i - |recs| - 1 + 1], SyntheticRecord(t, it, now));
        assert GoodItem(t, it) && id == SyntheticId(t, it, now);
        assert IsSynthetic(t, id, now);
      }
    }
  }

  lemma ListedItemsAreGood(t: Target, h: History, r: nat, items: seq<Item>)
    requires GoodHistory(t, h) && r < |h| && Lists(t, items, CollAt(t, h, r))
    ensures forall i :: 0 <= i < |items| ==> GoodItem(t, items[i])
  {
    CollItemsGood(t, h[..r + 1]);
    ListedItems(t, items);
    forall i | 0 <= i < |items| ensures GoodItem(t, items[i]) {
      assert ItemsMap(t, items)[IdOf(t, items[i])] == items[i];
    }
  }

  lemma StoredBatchTimes(t: Target, listRV: string, items: seq<Item>, now: Time, xs: seq<Record>)
    requires StoredBatch(t, listRV, items, now, xs)
    ensures forall i :: 0 <= i < |xs| ==> xs[i].observedAt == now
  {
    forall i | 0 <= i < |xs| ensures xs[i].observedAt == now {
      if i > 0 { assert SameBut(xs[i - 1 + 1], SyntheticRecord(t, items[i - 1], now)); }
    }
  }

  /** A list restarts the guarantee at the revision it shows. */
  lemma ListKeepsSound(t: Target, h: History, recs: seq<Record>, clock: Time, listClock: Time, w: Witness, r: nat,
                       listRV: string, items: seq<Item>, xs: seq<Record>, now: Time) returns (w': Witness)
    requires Sound(t, h, recs, clock, listClock, w)
    requires r < |h| && Lists(t, items, CollAt(t, h, r)) && (listRV == "" || listRV == h[r].text)
    requires NoLiveAfter(t, h, recs, r)
    requires clock <= now && listClock < now
    requires StoredBatch(t, listRV, items, now, xs)
    ensures w' == Witness(r, r, w.marks + Repeat(|xs|, r))
    ensures Sound(t, h, recs + xs, now, now, w') && Complete(t, recs + xs)
  {
    w' := Witness(r, r, w.marks + Repeat(|xs|, r));
    ListedItemsAreGood(t, h, r, items);
    StoredBatchTimes(t, listRV, items, now, xs);
    BatchReduces(t, recs, listRV, items, now, xs);
    MarkedGrows(t, h, recs, w, xs, clock, now, w');
    InTimeGrows(recs, xs, clock, now);
    ListExplainsIds(t, h, recs, listClock, w.high, r, listRV, items, now, xs);
    assert (recs + xs)[|recs|] == xs[0];
    BatchIsShaped(t, listRV, items, now, xs);
  }

  lemma BatchIsShaped(t: Target, listRV: string, items: seq<Item>, now: Time, xs: seq<Record>)
    requires StoredBatch(t, listRV, items, now, xs) && forall i :: 0 <= i < |items| ==> GoodItem(t, items[i])
    ensures Shaped(t, xs)
  {
    forall i | 0 <= i < |xs| ensures ShapedRecord(t, xs[i]) {
      if i > 0 { assert SameBut(xs[i - 1 + 1], SyntheticRecord(t, items[i - 1], now)) && GoodItem(t, items[i - 1]); }
    }
  }

  // ---------------------------------------------------------------- the server moves on

  lemma IsLiveGrows(t: Target, h: History, rev: Revision, id: string, high: int)
    requires high < |h|
    ensures IsLive(t, h + [rev], id, high) <==> IsLive(t, h, id, high)
  {
    var h' := h + [rev];
    if IsLive(t, h, id, high) {
      var e: nat :| e < |h| && e <= high && h[e].change.Some? && id == LiveIdAt(t, h, e);
      assert h'[e] == h[e] && id == LiveIdAt(t, h', e);
    }
    if IsLive(t, h', id, high) {
      var e: nat :| e < |h'| && e <= high && h'[e].change.Some? && id == LiveIdAt(t, h', e);
      assert h'[e] == h[e] && id == LiveIdAt(t, h, e);
    }
  }

  lemma MarkedUnderGrowth(t: Target, h: History, rev: Revision, recs: seq<Record>, w: Witness)
    requires Marked(t, h, recs, w)
    ensures Marked(t, h + [rev], recs, w)
  {
    forall k | 0 <= k <= |recs| && Boundary(recs, k) && Complete(t, recs[..k])
      ensures ShowsRevision(t, h + [rev], recs[..k], w.marks[k])
    {
      HistoryGrows(t, h, rev, w.marks[k]);
    }
  }

  /** New revisions of the server take nothing back. */
  lemma WriteKeepsSound(t: Target, h: History, rev: Revision, recs: seq<Record>, clock: Time, listClock: Time,
                        w: Witness)
    requires Sound(t, h, recs, clock, listClock, w) && GoodHistory(t, h + [rev])
    ensures Sound(t, h + [rev], recs, clock, listClock, w)
  {
    var h' := h + [rev];
    MarkedUnderGrowth(t, h, rev, recs, w);
    forall i | 0 <= i < |recs| && recs[i].eventId != ""
      ensures IsLive(t, h', recs[i].eventId, w.high) || IsSynthetic(t, recs[i].eventId, listClock)
    {
      IsLiveGrows(t, h, rev, recs[i].eventId, w.high);
    }
    forall e: nat | e < |h'| && w.base < e <= w.high && h'[e].change.Some?
      ensures StandsAfter(t, h', recs, LastBaseline(recs), e)
    {
      assert h'[e] == h[e] && StandsAfter(t, h, recs, LastBaseline(recs), e);
      var i: nat :| LastBaseline(recs) < i < |recs| && Carries(t, h, e, recs[i]);
      assert Carries(t, h', e, recs[i]);
    }
    assert w.base >= 0 ==> h'[w.base] == h[w.base];
  }
}
