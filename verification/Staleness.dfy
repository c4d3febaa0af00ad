/** When a list may be old. */
module Staleness {
  import opened Text
  import opened Events
  import opened Journal
  import opened Reducer
  import opened Watch
  import opened Server
  import opened Coverage
  import opened Protocol
  import opened Hypotheses

  // A list older than journalled changes hides those changes. Whether the reconstruction is right all
  // the same is settled object by object.

  // ---------------------------------------------------------------- collections, seen from payloads

  /** What the collection holds under `id`. */
  function PayloadIn(c: Collection, id: ObjectId): Option<string> {
    if id in c then Some(c[id].payload) else None
  }

  ghost predicate PlainNames(c: Collection) { forall id :: id in c ==> SlashFreeId(id) }

  lemma AgreementFixesPayload(t: Target, states: map<string, ObjectState>, b: Collection, c: Collection, id: ObjectId)
    requires Agrees(t, states, b) && Agrees(t, states, c) && id in b
    ensures PayloadIn(b, id) == PayloadIn(c, id)
  {
    assert KeyOfId(id) in states;
    var id' :| id' in c && KeyOfId(id') == KeyOfId(id);
    KeyOfIdIsInjective(id, id');
  }

  /** States that agree with one collection agree with another exactly when the two hold the same. */
  lemma AgreesWithBoth(t: Target, states: map<string, ObjectState>, b: Collection, c: Collection)
    requires Agrees(t, states, b) && PlainNames(c)
    ensures Agrees(t, states, c) <==> forall id :: PayloadIn(b, id) == PayloadIn(c, id)
  {
    if Agrees(t, states, c) {
      forall id ensures PayloadIn(b, id) == PayloadIn(c, id) {
        if id in b { AgreementFixesPayload(t, states, b, c, id); }
        if id in c { AgreementFixesPayload(t, states, c, b, id); }
      }
    }
    if forall id :: PayloadIn(b, id) == PayloadIn(c, id) {
      forall id | id in c
        ensures SlashFreeId(id) && KeyOfId(id) in states && Shows(t, states[KeyOfId(id)], id, c[id])
      {
        assert PayloadIn(b, id) == PayloadIn(c, id);
      }
      forall k | k in states ensures exists id :: id in c && KeyOfId(id) == k {
        var id :| id in b && KeyOfId(id) == k;
        assert PayloadIn(b, id) == PayloadIn(c, id);
      }
    }
  }

  // ---------------------------------------------------------------- a collection after some changes

  /** The collection after those changes in (r, n) that count. */
  function Replay(t: Target, h: History, c: Collection, r: nat, n: nat, counts: nat -> bool): Collection
    requires n <= |h|
  {
    if n <= r + 1 then c
    else
      var before := Replay(t, h, c, r, n - 1, counts);
      if counts(n - 1) then ApplyChange(t, before, h[n - 1]) else before
  }

  /** Revision `e` changes the object. */
  predicate Touches(t: Target, h: History, e: nat, id: ObjectId)
    requires e < |h|
  {
    h[e].change.Some? && IdOf(t, ItemOf(h[e])) == id
  }

  /** The last change of the object in (r, n) that counts; -1 if there is none. */
  function LastOf(t: Target, h: History, r: nat, n: nat, counts: nat -> bool, id: ObjectId): (e: int)
    requires n <= |h|
    ensures -1 <= e < n
    ensures e >= 0 ==> r < e && counts(e) && Touches(t, h, e, id)
    ensures forall d: nat :: r < d < n && e < d && counts(d) ==> !Touches(t, h, d, id)
  {
    if n <= r + 1 then -1
    else if counts(n - 1) && Touches(t, h, n - 1, id) then n - 1
    else LastOf(t, h, r, n - 1, counts, id)
  }

  /** What a change leaves of its object. */
  function Leaves(h: History, e: nat): Option<string>
    requires e < |h| && h[e].change.Some?
  {
    if h[e].change.value.w == Deleted then None else Some(h[e].change.value.payload)
  }

  /** What stands under `id`: what the last change that counts left, or what stood before. */
  function StandsFor(t: Target, h: History, c: Collection, r: nat, counts: nat -> bool, id: ObjectId): Option<string> {
    var e := LastOf(t, h, r, |h|, counts, id);
    if e >= 0 then Leaves(h, e) else PayloadIn(c, id)
  }

  lemma {:induction false} ReplayAt(t: Target, h: History, c: Collection, r: nat, n: nat, counts: nat -> bool,
                                    id: ObjectId)
    requires n <= |h|
    ensures var e := LastOf(t, h, r, n, counts, id);
            PayloadIn(Replay(t, h, c, r, n, counts), id) == if e >= 0 then Leaves(h, e) else PayloadIn(c, id)
  {
    if n > r + 1 { ReplayAt(t, h, c, r, n - 1, counts, id); }
  }

  function All(): nat -> bool { e => true }

  /** The changes whose keys the journal does not hold. */
  function Unknown(t: Target, h: History, recs: seq<Record>): nat -> bool {
    (e: nat) => e < |h| && h[e].change.Some? && !Known(recs, LiveIdAt(t, h, e))
  }

  lemma {:induction false} ReplayAll(t: Target, h: History, r: nat, n: nat)
    requires r < n <= |h|
    ensures Replay(t, h, CollAt(t, h, r), r, n, All()) == CollAt(t, h, n - 1)
  {
    if n > r + 1 {
      ReplayAll(t, h, r, n - 1);
      assert h[..n][..n - 1] == h[..n - 1];
    }
  }

  // ---------------------------------------------------------------- what the list and the watch show

  /** The records show collection `c`, with no gap. */
  ghost predicate Displays(t: Target, recs: seq<Record>, c: Collection) {
    Complete(t, recs) && Agrees(t, Reduce(t.streamId, recs).states, c)
  }

  lemma DisplaysNext(t: Target, h: History, recs: seq<Record>, c: Collection, e: nat, recs': seq<Record>)
    requires GoodHistory(t, h) && e < |h| && h[e].change.Some? && Displays(t, recs, c)
    requires AddsOnce(t, h, e, recs, recs')
    ensures Displays(t, recs', if Known(recs, LiveIdAt(t, h, e)) then c else ApplyChange(t, c, h[e]))
  {
    if !Known(recs, LiveIdAt(t, h, e)) {
      var x := recs'[|recs|];
      assert recs' == recs + [x];
      ReduceSnoc(t.streamId, recs, x);
      ChangeShows(t, h, Reduce(t.streamId, recs).states, c, e, x, x.observedAt);
    }
  }

  /** One delivery, as the stream's records see it. */
  ghost predicate Delivered(t: Target, h: History, e: nat, recs: seq<Record>, recs': seq<Record>)
    requires e < |h|
  {
    if h[e].change.Some? then AddsOnce(t, h, e, recs, recs') else recs' == recs
  }

  type Kept = (nat, seq<Record>) -> bool

  /** Every delivery of the watch keeps it. */
  ghost predicate Survives(t: Target, h: History, recs: seq<Record>, r: nat, kept: Kept) {
    forall m: nat, recs1, recs2 ::
      r < m < |h| && WatchLeaves(t, h, recs, r, m, recs1) && kept(m, recs1) && Delivered(t, h, m, recs1, recs2) ==>
        kept(m + 1, recs2)
  }

  lemma {:induction false} SurvivesOne(t: Target, h: History, log: seq<Record>, r: nat, m: nat, before: seq<Record>,
                                       watch: Watcher, kept: Kept)
    requires GoodHistory(t, h) && DeliversOnce(t, h, watch) && r < m < |h| && Watched(t, h, log, r, m, before)
    requires Survives(t, h, ForStream(log, t.streamId), r, kept) && kept(m, ForStream(before, t.streamId))
    ensures Watched(t, h, log, r, m + 1, watch(before, m)) && kept(m + 1, ForStream(watch(before, m), t.streamId))
  {
    WatchedNext(t, h, log, r, m, before, watch);
    assert Delivered(t, h, m, ForStream(before, t.streamId), ForStream(watch(before, m), t.streamId));
  }

  /** What every delivery keeps holds after the whole watch. */
  lemma {:induction false} WatchKeeps(t: Target, h: History, log: seq<Record>, r: nat, n: nat, watch: Watcher,
                                      kept: Kept)
    requires NulFreeLog(log) && GoodHistory(t, h) && r < n <= |h| && DeliversOnce(t, h, watch)
    requires Survives(t, h, ForStream(log, t.streamId), r, kept) && kept(r + 1, ForStream(log, t.streamId))
    ensures Watched(t, h, log, r, n, AfterWatch(log, r, n, watch))
    ensures kept(n, ForStream(AfterWatch(log, r, n, watch), t.streamId))
  {
    if n == r + 1 {
      WatchedNothing(t, h, log, r, n);
    } else {
      WatchKeeps(t, h, log, r, n - 1, watch, kept);
      SurvivesOne(t, h, log, r, n - 1, AfterWatch(log, r, n - 1, watch), watch, kept);
    }
  }

  lemma ReplayNext(t: Target, h: History, c: Collection, r: nat, m: nat, counts: nat -> bool)
    requires r < m < |h|
    ensures Replay(t, h, c, r, m + 1, counts) ==
            if counts(m) then ApplyChange(t, Replay(t, h, c, r, m, counts), h[m]) else Replay(t, h, c, r, m, counts)
  {
  }

  /** The records display `c` with the changes that `recs` does not know replayed. */
  ghost function Displaying(t: Target, h: History, recs: seq<Record>, c: Collection, r: nat): Kept {
    (m: nat, recs': seq<Record>) => m <= |h| && Displays(t, recs', Replay(t, h, c, r, m, Unknown(t, h, recs)))
  }

  lemma DisplayGoesOn(t: Target, h: History, recs: seq<Record>, c: Collection, r: nat, m: nat, recs1: seq<Record>,
                      recs2: seq<Record>)
    requires GoodHistory(t, h) && r < m < |h| && WatchLeaves(t, h, recs, r, m, recs1)
    requires Displaying(t, h, recs, c, r)(m, recs1) && Delivered(t, h, m, recs1, recs2)
    ensures Displaying(t, h, recs, c, r)(m + 1, recs2)
  {
    ReplayNext(t, h, c, r, m, Unknown(t, h, recs));
    if h[m].change.Some? {
      NextIsNew(t, h, recs, r, m, recs1);
      DisplaysNext(t, h, recs1, Replay(t, h, c, r, m, Unknown(t, h, recs)), m, recs2);
    }
  }

  lemma {:induction false} WatchDisplays(t: Target, log: seq<Record>, h: History, c: Collection, r: nat, watch: Watcher)
    requires NulFreeLog(log) && GoodHistory(t, h) && r < |h| && DeliversOnce(t, h, watch)
    requires Displays(t, ForStream(log, t.streamId), c)
    ensures Displaying(t, h, ForStream(log, t.streamId), c, r)
              (|h|, ForStream(AfterWatch(log, r, |h|, watch), t.streamId))
  {
    var recs := ForStream(log, t.streamId);
    var kept := Displaying(t, h, recs, c, r);
    forall m: nat, recs1: seq<Record>, recs2: seq<Record>
      | r < m < |h| && WatchLeaves(t, h, recs, r, m, recs1) && kept(m, recs1) && Delivered(t, h, m, recs1, recs2)
      ensures kept(m + 1, recs2)
    {
      DisplayGoesOn(t, h, recs, c, r, m, recs1, recs2);
    }
    WatchKeeps(t, h, log, r, |h|, watch, kept);
  }

  // ---------------------------------------------------------------- the exact condition

  lemma {:induction false} LastOfAlike(t: Target, h: History, r: nat, n: nat, p: nat -> bool, q: nat -> bool,
                                       id: ObjectId)
    requires n <= |h| && forall e: nat :: e < |h| && h[e].change.Some? ==> p(e) == q(e)
    ensures LastOf(t, h, r, n, p, id) == LastOf(t, h, r, n, q, id)
  {
    if n > r + 1 { LastOfAlike(t, h, r, n - 1, p, q, id); }
  }

  lemma {:induction false} LastCollectionIsPlain(t: Target, h: History)
    requires GoodHistory(t, h)
    ensures PlainNames(Coll(t, h))
  {
    CollItemsGood(t, h);
  }

  /** What the list and the watch leave under `id`, and what the server holds there in the end. */
  predicate ToldRight(t: Target, h: History, recs: seq<Record>, r: nat, items: seq<Item>, now: Time, id: ObjectId)
    requires r < |h|
  {
    StandsFor(t, h, Taken(t, recs, items, now), r, Unknown(t, h, recs), id) ==
    StandsFor(t, h, CollAt(t, h, r), r, All(), id)
  }

  /** What is replayed under `id` is what the server holds there exactly when the object is told right. */
  lemma {:induction false} ToldAt(t: Target, h: History, recs: seq<Record>, recs1: seq<Record>, r: nat,
                                  items: seq<Item>, now: Time, id: ObjectId)
    requires GoodHistory(t, h) && r < |h| && KnowsSameChanges(t, h, recs, recs1)
    ensures (PayloadIn(Replay(t, h, Taken(t, recs, items, now), r, |h|, Unknown(t, h, recs1)), id) ==
             PayloadIn(CollAt(t, h, |h| - 1), id)) <==> ToldRight(t, h, recs, r, items, now, id)
  {
    ReplayAll(t, h, r, |h|);
    ReplayAt(t, h, Taken(t, recs, items, now), r, |h|, Unknown(t, h, recs1), id);
    LastOfAlike(t, h, r, |h|, Unknown(t, h, recs1), Unknown(t, h, recs), id);
    ReplayAt(t, h, CollAt(t, h, r), r, |h|, All(), id);
  }

  ghost predicate KnowsSameChanges(t: Target, h: History, recs: seq<Record>, recs1: seq<Record>) {
    forall e: nat :: e < |h| && h[e].change.Some? ==>
      (Known(recs1, LiveIdAt(t, h, e)) <==> Known(recs, LiveIdAt(t, h, e)))
  }

  /** The journal after the list. */
  lemma {:induction false} ListDisplays(t: Target, log: seq<Record>, h: History, rv: string, items: seq<Item>,
                                        now: Time)
    requires NulFreeLog(log) && Lacks(t.streamId, NUL) && GoodHistory(t, h) && Listable(t, items) && now > EPOCH
    ensures var recs, log1 := ForStream(log, t.streamId), AfterList(t, log, rv, items, now);
            && NulFreeLog(log1) && KnowsSameChanges(t, h, recs, ForStream(log1, t.streamId))
            && Displays(t, ForStream(log1, t.streamId), Taken(t, recs, items, now))
  {
    var log1 := AfterList(t, log, rv, items, now);
    var recs, recs1 := ForStream(log, t.streamId), ForStream(log1, t.streamId);
    ListLeft(t, log, rv, items, now);
    TakenAgrees(t, recs, items, now, Reduce(t.streamId, recs1).states);
    forall e: nat | e < |h| && h[e].change.Some?
      ensures Known(recs1, LiveIdAt(t, h, e)) <==> Known(recs, LiveIdAt(t, h, e))
    {
      ListKnowsNoChange(t, h, recs, items, now, recs1, e);
    }
  }

  /** States that agree with what is replayed agree with the last collection exactly when every object
      is told right. */
  lemma {:induction false} ToldByObject(t: Target, h: History, recs: seq<Record>, recs1: seq<Record>, r: nat,
                                        items: seq<Item>, now: Time, states: map<string, ObjectState>)
    requires GoodHistory(t, h) && r < |h| && KnowsSameChanges(t, h, recs, recs1)
    requires Agrees(t, states, Replay(t, h, Taken(t, recs, items, now), r, |h|, Unknown(t, h, recs1)))
    ensures Agrees(t, states, CollAt(t, h, |h| - 1)) <==> forall id :: ToldRight(t, h, recs, r, items, now, id)
  {
    var b, c := Replay(t, h, Taken(t, recs, items, now), r, |h|, Unknown(t, h, recs1)), CollAt(t, h, |h| - 1);
    assert h[..|h|] == h;
    LastCollectionIsPlain(t, h);
    AgreesWithBoth(t, states, b, c);
    forall id ensures PayloadIn(b, id) == PayloadIn(c, id) <==> ToldRight(t, h, recs, r, items, now, id) {
      ToldAt(t, h, recs, recs1, r, items, now, id);
    }
    assert (forall id :: ToldRight(t, h, recs, r, items, now, id)) ==>
      forall id :: PayloadIn(b, id) == PayloadIn(c, id);
  }

  /** THE EXACT CONDITION ON THE CLAIM: list revision `r`, on any journal, and let the watch deliver
      every later change. The reduction, which reports no gap, agrees with the last revision if and
      only if every object is told right: what its last change of unknown key left, or the list if
      there is none, is what its last change left, or revision `r` if there is none. */
  lemma {:induction false} AgreesIffToldRight(t: Target, log: seq<Record>, h: History, r: nat, rv: string,
                                              items: seq<Item>, now: Time, when: nat -> Time)
    requires WellListed(t, log, h, r, items, now, when)
    ensures var recs := ForStream(log, t.streamId);
            var red := Reduce(t.streamId, ForStream(ListAndWatch(t, log, h, r, rv, items, now, when), t.streamId));
            && Reported(red)
            && (Agrees(t, red.states, CollAt(t, h, |h| - 1)) <==>
                forall id :: ToldRight(t, h, recs, r, items, now, id))
  {
    var log1, watch := AfterList(t, log, rv, items, now), Watching(t, h, when);
    var recs, recs1 := ForStream(log, t.streamId), ForStream(log1, t.streamId);
    ListDisplays(t, log, h, rv, items, now);
    WatchingDeliversOnce(t, h, when);
    WatchDisplays(t, log1, h, Taken(t, recs, items, now), r, watch);
    ToldByObject(t, h, recs, recs1, r, items, now,
                 Reduce(t.streamId, ForStream(AfterWatch(log1, r, |h|, watch), t.streamId)).states);
  }

  /** In particular when the list shows its revision and no object's last change was known: older
      changes may well have been swallowed. */
  lemma {:induction false} FreshLastChangesAgree(t: Target, log: seq<Record>, h: History, r: nat, rv: string,
                                                 items: seq<Item>, now: Time, when: nat -> Time)
    requires WellListed(t, log, h, r, items, now, when) && ItemsMap(t, items) == CollAt(t, h, r)
    requires forall i :: 0 <= i < |items| ==> Adds(t, ForStream(log, t.streamId), items[i], now)
    requires forall id :: var e := LastOf(t, h, r, |h|, All(), id);
               e >= 0 ==> !Known(ForStream(log, t.streamId), LiveIdAt(t, h, e))
    ensures var red := Reduce(t.streamId, ForStream(ListAndWatch(t, log, h, r, rv, items, now, when), t.streamId));
            Agrees(t, red.states, CollAt(t, h, |h| - 1))
  {
    var recs := ForStream(log, t.streamId);
    TakenIsAll(t, recs, items, now);
    forall id ensures ToldRight(t, h, recs, r, items, now, id) {
      LastUnknownIsLast(t, h, recs, r, |h|, id);
    }
    AgreesIffToldRight(t, log, h, r, rv, items, now, when);
  }

  lemma {:induction false} LastUnknownIsLast(t: Target, h: History, recs: seq<Record>, r: nat, n: nat, id: ObjectId)
    requires n <= |h|
    requires var e := LastOf(t, h, r, n, All(), id); e >= 0 ==> !Known(recs, LiveIdAt(t, h, e))
    ensures LastOf(t, h, r, n, Unknown(t, h, recs), id) == LastOf(t, h, r, n, All(), id)
  {
    var e, d := LastOf(t, h, r, n, All(), id), LastOf(t, h, r, n, Unknown(t, h, recs), id);
    assert d >= 0 ==> d <= e;
  }
}
