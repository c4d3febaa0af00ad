/** What each hypothesis on lists is for. */
module Hypotheses {
  import opened Text
  import opened Events
  import opened Identity
  import opened Journal
  import opened Reducer
  import opened Watch
  import opened Server
  import opened Coverage
  import opened Protocol

  // What happens without them, exactly: a list loses an object if and only if the object's synthetic
  // key is known already, and hides a change if and only if the change's live key is.

  // ---------------------------------------------------------------- what any list leaves

  ghost predicate Listable(t: Target, items: seq<Item>) {
    && (forall i :: 0 <= i < |items| ==> GoodItem(t, items[i]))
    && (forall i, j :: 0 <= i < j < |items| ==> IdOf(t, items[i]) != IdOf(t, items[j]))
  }

  /** The journal after a list is stored. */
  function AfterList(t: Target, log: seq<Record>, rv: string, items: seq<Item>, now: Time): seq<Record> {
    HandleList(t, log, rv, items, now, Stored).log
  }

  function KeyOfItem(t: Target, it: Item): string { KeyOfId(IdOf(t, it)) }

  /** The list adds the item: its synthetic key is new. */
  predicate Adds(t: Target, recs: seq<Record>, it: Item, now: Time) { !Known(recs, SyntheticId(t, it, now)) }

  ghost predicate ShowsAdded(t: Target, recs: seq<Record>, items: seq<Item>, now: Time,
                             states: map<string, ObjectState>) {
    && (forall k :: k in states ==>
         exists i :: 0 <= i < |items| && Adds(t, recs, items[i], now) && KeyOfItem(t, items[i]) == k)
    && (forall i :: 0 <= i < |items| && Adds(t, recs, items[i], now) ==>
          KeyOfItem(t, items[i]) in states && Shows(t, states[KeyOfItem(t, items[i])], IdOf(t, items[i]), items[i]))
  }

  ghost predicate KnowsListed(t: Target, recs: seq<Record>, items: seq<Item>, now: Time, recs': seq<Record>) {
    forall id :: Known(recs', id) <==>
      Known(recs, id) || exists i :: 0 <= i < |items| && id == SyntheticId(t, items[i], now)
  }

  predicate FromList(t: Target, items: seq<Item>, now: Time, x: Record) {
    x.rtype == Baseline || exists i | 0 <= i < |items| :: x.eventId == SyntheticId(t, items[i], now)
  }

  /** The stream's journal `recs'` is `recs` after a list. */
  ghost predicate ListLeaves(t: Target, recs: seq<Record>, items: seq<Item>, now: Time, recs': seq<Record>) {
    var red := Reduce(t.streamId, recs');
    && Reported(red) && recs <= recs' && LastBaseline(recs') == |recs|
    && ShowsAdded(t, recs, items, now, red.states)
    && KnowsListed(t, recs, items, now, recs')
    && (forall i :: |recs| <= i < |recs'| ==> FromList(t, items, now, recs'[i]))
  }

  lemma AfterBaseline(t: Target, log: seq<Record>, rv: string, now: Time)
    ensures AfterList(t, log, rv, [], now) == Append(log, BaselineRecord(t, rv, now), now)
  {
    var b := BaselineRecord(t, rv, now);
    assert Batch(t, rv, [], now) == [b];
    assert Deliveries([b], now) == [Delivery(b, now)];
    assert [Delivery(b, now)][..0] == [];
    assert Play(log, [Delivery(b, now)]) == Append(Play(log, []), b, now);
  }

  lemma BaselineLeaves(t: Target, recs: seq<Record>, rv: string, now: Time, b: Record)
    requires SameBut(b, BaselineRecord(t, rv, now))
    ensures ListLeaves(t, recs, [], now, recs + [b])
  {
    ReduceSnoc(t.streamId, recs, b);
    LastBaselineSnoc(recs, b);
    KnownGrows(recs, b);
  }

  lemma {:induction false} AfterNoItems(t: Target, log: seq<Record>, rv: string, now: Time)
    requires NulFreeLog(log) && Lacks(t.streamId, NUL) && now > EPOCH
    ensures NulFreeLog(AfterList(t, log, rv, [], now))
    ensures ListLeaves(t, ForStream(log, t.streamId), [], now, ForStream(AfterList(t, log, rv, [], now), t.streamId))
  {
    AfterBaseline(t, log, rv, now);
    var b := AppendToStream(log, BaselineRecord(t, rv, now), now);
    BaselineLeaves(t, ForStream(log, t.streamId), rv, now, b);
  }

  lemma KnownGrows(recs: seq<Record>, r: Record)
    ensures forall id :: Known(recs + [r], id) <==> Known(recs, id) || (id != "" && id == r.eventId)
  {
    var all := recs + [r];
    forall id ensures Known(all, id) <==> Known(recs, id) || (id != "" && id == r.eventId) {
      if Known(recs, id) {
        var i :| 0 <= i < |recs| && recs[i].eventId == id;
        assert all[i].eventId == id;
      }
      if id == r.eventId { assert all[|recs|].eventId == id; }
    }
  }

  /** One more item of the batch. */
  lemma AfterOneMore(t: Target, log: seq<Record>, rv: string, items: seq<Item>, now: Time)
    requires items != [] && now > EPOCH
    ensures AfterList(t, log, rv, items, now) ==
            Append(AfterList(t, log, rv, items[..|items| - 1], now), SyntheticRecord(t, items[|items| - 1], now), now)
  {
    var init, rec := Batch(t, rv, items[..|items| - 1], now), SyntheticRecord(t, items[|items| - 1], now);
    assert Batch(t, rv, items, now) == init + [rec];
    assert Deliveries(init + [rec], now)[..|init|] == Deliveries(init, now);
  }

  lemma AddsLater(t: Target, items: seq<Item>, now: Time, recs: seq<Record>, recs': seq<Record>, it: Item)
    requires Listable(t, items + [it]) && KnowsListed(t, recs, items, now, recs')
    ensures Adds(t, recs', it, now) <==> Adds(t, recs, it, now)
  {
    var all := items + [it];
    forall i | 0 <= i < |items| ensures SyntheticId(t, it, now) != SyntheticId(t, items[i], now) {
      assert all[i] == items[i] && all[|items|] == it;
      if SyntheticId(t, it, now) == SyntheticId(t, items[i], now) { SyntheticIdsDiffer(t, it, now, items[i], now); }
    }
  }

  lemma KnowsOneMore(t: Target, recs: seq<Record>, items: seq<Item>, now: Time, it: Item, before: seq<Record>,
                     after: seq<Record>)
    requires KnowsListed(t, recs, items, now, before) && SyntheticId(t, it, now) != ""
    requires forall id :: Known(after, id) <==> Known(before, id) || id == SyntheticId(t, it, now)
    ensures KnowsListed(t, recs, items + [it], now, after)
  {
    var all := items + [it];
    forall id
      ensures Known(after, id) <==> Known(recs, id) || exists i :: 0 <= i < |all| && id == SyntheticId(t, all[i], now)
    {
      if i :| 0 <= i < |items| && id == SyntheticId(t, items[i], now) { assert id == SyntheticId(t, all[i], now); }
      if id == SyntheticId(t, it, now) { assert id == SyntheticId(t, all[|items|], now); }
    }
  }

  lemma ShowsOneMore(t: Target, recs: seq<Record>, items: seq<Item>, now: Time, it: Item,
                     states: map<string, ObjectState>, st: ObjectState)
    requires Listable(t, items + [it]) && ShowsAdded(t, recs, items, now, states)
    requires Shows(t, st, IdOf(t, it), it)
    ensures ShowsAdded(t, recs, items + [it], now,
                       if Adds(t, recs, it, now) then states[KeyOfItem(t, it) := st] else states)
  {
    var all := items + [it];
    assert all[|items|] == it;
    forall i | 0 <= i < |items| ensures all[i] == items[i] && KeyOfItem(t, items[i]) != KeyOfItem(t, it) {
      if KeyOfItem(t, all[i]) == KeyOfItem(t, it) { KeyOfIdIsInjective(IdOf(t, all[i]), IdOf(t, all[|items|])); }
    }
  }

  /** A new synthetic event adds its object and leaves the coverage alone. */
  lemma {:induction false} SyntheticReduces(t: Target, recs: seq<Record>, it: Item, now: Time, r: Record)
    requires GoodItem(t, it) && SameBut(r, SyntheticRecord(t, it, now)) && Reported(Reduce(t.streamId, recs))
    ensures var red := Reduce(t.streamId, recs + [r]);
            && Reported(red) && LastBaseline(recs + [r]) == LastBaseline(recs)
            && red.states == Reduce(t.streamId, recs).states[KeyOfItem(t, it) := StateOf(t.streamId, r)]
            && Shows(t, StateOf(t.streamId, r), IdOf(t, it), it)
  {
    ReduceSnoc(t.streamId, recs, r);
    LastBaselineSnoc(recs, r);
    assert r.resource.ObjectKey() == KeyOfItem(t, it);
  }

  lemma FromLongerList(t: Target, items: seq<Item>, it: Item, now: Time, x: Record)
    requires FromList(t, items, now, x) || x.eventId == SyntheticId(t, it, now)
    ensures FromList(t, items + [it], now, x)
  {
    var all := items + [it];
    assert all[|items|] == it;
    if i :| 0 <= i < |items| && x.eventId == SyntheticId(t, items[i], now) { assert all[i] == items[i]; }
  }

  /** One more item, new or known. */
  lemma LeavesOneMore(t: Target, recs: seq<Record>, items: seq<Item>, now: Time, it: Item, recs1: seq<Record>,
                      r: Record, recs2: seq<Record>)
    requires Listable(t, items + [it]) && ListLeaves(t, recs, items, now, recs1)
    requires SameBut(r, SyntheticRecord(t, it, now)) && SyntheticId(t, it, now) != ""
    requires recs2 == if Adds(t, recs1, it, now) then recs1 + [r] else recs1
    ensures ListLeaves(t, recs, items + [it], now, recs2)
  {
    assert (items + [it])[|items|] == it && GoodItem(t, it);
    AddsLater(t, items, now, recs, recs1, it);
    SyntheticReduces(t, recs1, it, now, r);
    KnownGrows(recs1, r);
    KnowsOneMore(t, recs, items, now, it, recs1, recs2);
    ShowsOneMore(t, recs, items, now, it, Reduce(t.streamId, recs1).states, StateOf(t.streamId, r));
    forall i | |recs| <= i < |recs2| ensures FromList(t, items + [it], now, recs2[i]) {
      FromLongerList(t, items, it, now, recs2[i]);
    }
  }

  /** What a list leaves, on any journal: exactly the listed objects whose synthetic keys are new. */
  lemma {:induction false} ListLeft(t: Target, log: seq<Record>, rv: string, items: seq<Item>, now: Time)
    requires NulFreeLog(log) && Lacks(t.streamId, NUL) && now > EPOCH && Listable(t, items)
    ensures NulFreeLog(AfterList(t, log, rv, items, now))
    ensures ListLeaves(t, ForStream(log, t.streamId), items, now,
                       ForStream(AfterList(t, log, rv, items, now), t.streamId))
    decreases |items|
  {
    if items == [] {
      AfterNoItems(t, log, rv, now);
    } else {
      var init, it := items[..|items| - 1], items[|items| - 1];
      var log1, rec := AfterList(t, log, rv, init, now), SyntheticRecord(t, it, now);
      assert items == init + [it];
      ListLeft(t, log, rv, init, now);
      AfterOneMore(t, log, rv, items, now);
      EventIdIsNotEmpty(t.streamId, RefFromObject(t, it), Added, UnixNano(now));
      var r := AppendToStream(log1, rec, now);
      LeavesOneMore(t, ForStream(log, t.streamId), init, now, it, ForStream(log1, t.streamId), r,
                    ForStream(AfterList(t, log, rv, items, now), t.streamId));
    }
  }

  lemma {:induction false} MapHoldsItems(t: Target, items: seq<Item>, id: ObjectId)
    requires id in ItemsMap(t, items)
    ensures exists i :: 0 <= i < |items| && IdOf(t, items[i]) == id
  {
    var n := |items| - 1;
    if IdOf(t, items[n]) != id {
      MapHoldsItems(t, items[..n], id);
      var i :| 0 <= i < n && IdOf(t, items[..n][i]) == id;
      assert IdOf(t, items[i]) == id;
    }
  }

  /** THE EXACT CONDITION ON A LIST: after any list on any journal a listed object is present if
      and only if its synthetic key was not known, and the reduction, which reports no gap, agrees
      with the listed collection if and only if no listed object's key was known. */
  lemma {:induction false} ListShowsItsNewKeys(t: Target, log: seq<Record>, rv: string, items: seq<Item>, now: Time)
    requires NulFreeLog(log) && Lacks(t.streamId, NUL) && now > EPOCH && Listable(t, items)
    ensures var recs := ForStream(log, t.streamId);
            var red := Reduce(t.streamId, ForStream(AfterList(t, log, rv, items, now), t.streamId));
            && Reported(red)
            && (forall i :: 0 <= i < |items| ==>
                 (KeyOfItem(t, items[i]) in red.states <==> Adds(t, recs, items[i], now)))
            && (Agrees(t, red.states, ItemsMap(t, items)) <==>
                 forall i :: 0 <= i < |items| ==> Adds(t, recs, items[i], now))
  {
    ListLeft(t, log, rv, items, now);
    var recs := ForStream(log, t.streamId);
    var states := Reduce(t.streamId, ForStream(AfterList(t, log, rv, items, now), t.streamId)).states;
    PresentIffAdded(t, recs, items, now, states);
    AgreesIffAllAdded(t, recs, items, now, states);
  }

  lemma PresentIffAdded(t: Target, recs: seq<Record>, items: seq<Item>, now: Time, states: map<string, ObjectState>)
    requires Listable(t, items) && ShowsAdded(t, recs, items, now, states)
    ensures forall i :: 0 <= i < |items| ==> (KeyOfItem(t, items[i]) in states <==> Adds(t, recs, items[i], now))
  {
    forall i | 0 <= i < |items| && KeyOfItem(t, items[i]) in states ensures Adds(t, recs, items[i], now) {
      var j :| 0 <= j < |items| && Adds(t, recs, items[j], now) && KeyOfItem(t, items[j]) == KeyOfItem(t, items[i]);
      KeyOfIdIsInjective(IdOf(t, items[i]), IdOf(t, items[j]));
      assert i == j;
    }
  }

  /** The listed objects that the journal takes: those whose synthetic keys are new. */
  function Taken(t: Target, recs: seq<Record>, items: seq<Item>, now: Time): Collection {
    map id | id in ItemsMap(t, items) && Adds(t, recs, ItemsMap(t, items)[id], now) :: ItemsMap(t, items)[id]
  }

  lemma {:induction false} TakenAgrees(t: Target, recs: seq<Record>, items: seq<Item>, now: Time,
                                       states: map<string, ObjectState>)
    requires Listable(t, items) && ShowsAdded(t, recs, items, now, states)
    ensures Agrees(t, states, Taken(t, recs, items, now))
  {
    var c := Taken(t, recs, items, now);
    ListedItems(t, items);
    forall id | id in c ensures SlashFreeId(id) && KeyOfId(id) in states && Shows(t, states[KeyOfId(id)], id, c[id]) {
      MapHoldsItems(t, items, id);
      var i :| 0 <= i < |items| && IdOf(t, items[i]) == id;
      assert Adds(t, recs, items[i], now) && GoodItem(t, items[i]);
    }
    forall k | k in states ensures exists id :: id in c && KeyOfId(id) == k {
      var i :| 0 <= i < |items| && Adds(t, recs, items[i], now) && KeyOfItem(t, items[i]) == k;
      assert IdOf(t, items[i]) in c;
    }
  }

  lemma {:induction false} TakenIsAll(t: Target, recs: seq<Record>, items: seq<Item>, now: Time)
    requires Listable(t, items) && forall i :: 0 <= i < |items| ==> Adds(t, recs, items[i], now)
    ensures Taken(t, recs, items, now) == ItemsMap(t, items)
  {
    ListedItems(t, items);
    forall id | id in ItemsMap(t, items) ensures Adds(t, recs, ItemsMap(t, items)[id], now) {
      MapHoldsItems(t, items, id);
    }
  }

  lemma {:induction false} AgreesIffAllAdded(t: Target, recs: seq<Record>, items: seq<Item>, now: Time,
                                             states: map<string, ObjectState>)
    requires Listable(t, items) && ShowsAdded(t, recs, items, now, states)
    ensures Agrees(t, states, ItemsMap(t, items)) <==> forall i :: 0 <= i < |items| ==> Adds(t, recs, items[i], now)
  {
    if forall i :: 0 <= i < |items| ==> Adds(t, recs, items[i], now) {
      TakenIsAll(t, recs, items, now);
      TakenAgrees(t, recs, items, now, states);
    }
    if Agrees(t, states, ItemsMap(t, items)) {
      PresentIffAdded(t, recs, items, now, states);
      ListedItems(t, items);
      forall i | 0 <= i < |items| ensures KeyOfItem(t, items[i]) in states {
        assert IdOf(t, items[i]) in ItemsMap(t, items);
      }
    }
  }

  /** Two lists at one clock reading: the second shows an object exactly when neither the journal
      nor the first list knew its key. Listing the same again leaves nothing, with no gap. */
  lemma {:induction false} ListsAtOneInstant(t: Target, log: seq<Record>, rv: string, items: seq<Item>, rv2: string,
                                             items2: seq<Item>, now: Time)
    requires NulFreeLog(log) && Lacks(t.streamId, NUL) && now > EPOCH && Listable(t, items) && Listable(t, items2)
    ensures var recs := ForStream(log, t.streamId);
            var twice := AfterList(t, AfterList(t, log, rv, items, now), rv2, items2, now);
            var red := Reduce(t.streamId, ForStream(twice, t.streamId));
            && Reported(red)
            && (forall j :: 0 <= j < |items2| ==>
                  (KeyOfItem(t, items2[j]) in red.states <==>
                   Adds(t, recs, items2[j], now) &&
                   forall i :: 0 <= i < |items| ==> SyntheticId(t, items[i], now) != SyntheticId(t, items2[j], now)))
            && (items2 == items ==> red.states == map[])
  {
    ListLeft(t, log, rv, items, now);
    var log1 := AfterList(t, log, rv, items, now);
    ListLeft(t, log1, rv2, items2, now);
    ListShowsItsNewKeys(t, log1, rv2, items2, now);
    var states := Reduce(t.streamId, ForStream(AfterList(t, log1, rv2, items2, now), t.streamId)).states;
    if items2 == items {
      forall k ensures k !in states {
        assert forall i :: 0 <= i < |items| ==> !Adds(t, ForStream(log1, t.streamId), items[i], now);
      }
    }
  }

  // ---------------------------------------------------------------- what the watch after a list adds

  /** What the watch does to the journal: the change of a revision, if it has one, is delivered. */
  type Watcher = (seq<Record>, nat) -> seq<Record>

  function Watching(t: Target, h: History, when: nat -> Time): Watcher {
    (log: seq<Record>, e: nat) =>
      if e < |h| && h[e].change.Some?
      then HandleEvent(t, log, "", ObjectEvent(h[e].change.value.w, ItemOf(h[e])), when(e), Stored).log
      else log
  }

  /** A known change adds nothing, a new one its live record. */
  ghost predicate AddsOnce(t: Target, h: History, e: nat, recs: seq<Record>, recs': seq<Record>)
    requires e < |h| && h[e].change.Some?
  {
    if Known(recs, LiveIdAt(t, h, e)) then recs' == recs
    else |recs'| == |recs| + 1 && recs <= recs' && Carries(t, h, e, recs'[|recs|])
  }

  ghost predicate DeliversOnce(t: Target, h: History, watch: Watcher) {
    forall log, e: nat {:trigger watch(log, e)} :: NulFreeLog(log) && e < |h| ==>
      && NulFreeLog(watch(log, e))
      && (h[e].change.None? ==> watch(log, e) == log)
      && (h[e].change.Some? ==> AddsOnce(t, h, e, ForStream(log, t.streamId), ForStream(watch(log, e), t.streamId)))
  }

  lemma WatchingDeliversOnce(t: Target, h: History, when: nat -> Time)
    requires Lacks(t.streamId, NUL) && forall e :: when(e) > EPOCH
    ensures DeliversOnce(t, h, Watching(t, h, when))
  {
    forall log, e: nat | NulFreeLog(log) && e < |h| && h[e].change.Some?
      ensures NulFreeLog(Watching(t, h, when)(log, e))
      ensures AddsOnce(t, h, e, ForStream(log, t.streamId), ForStream(Watching(t, h, when)(log, e), t.streamId))
    {
      var x := AppendToStream(log, LiveRecord(t, h[e].change.value.w, ItemOf(h[e]), when(e)), when(e));
    }
  }

  /** The journal after the changes in (r, n) are delivered. */
  function AfterWatch(log: seq<Record>, r: nat, n: nat, watch: Watcher): seq<Record> {
    if n <= r + 1 then log else watch(AfterWatch(log, r, n - 1, watch), n - 1)
  }

  /** A change after `r` whose key `recs` does not hold. */
  predicate IsNew(t: Target, h: History, recs: seq<Record>, r: nat, e: nat) {
    r < e < |h| && h[e].change.Some? && !Known(recs, LiveIdAt(t, h, e))
  }

  ghost predicate CarriesNew(t: Target, h: History, recs: seq<Record>, r: nat, n: nat, x: Record) {
    exists e: nat :: e < n && IsNew(t, h, recs, r, e) && Carries(t, h, e, x)
  }

  /** The records after the first |recs| are the live records of exactly the new changes before `n`. */
  ghost predicate WatchLeaves(t: Target, h: History, recs: seq<Record>, r: nat, n: nat, recs': seq<Record>) {
    && recs <= recs'
    && (forall i :: |recs| <= i < |recs'| ==> CarriesNew(t, h, recs, r, n, recs'[i]))
    && (forall e: nat :: e < n && IsNew(t, h, recs, r, e) ==> StandsAfter(t, h, recs', |recs| - 1, e))
  }

  lemma CarriesNames(t: Target, h: History, e: nat, r: Record)
    requires e < |h| && h[e].change.Some? && Carries(t, h, e, r)
    ensures r.eventId == LiveIdAt(t, h, e) && r.rtype == Event && r.eventId != ""
  {
    EventIdIsNotEmpty(t.streamId, RefFromObject(t, ItemOf(h[e])), h[e].change.value.w, 0);
  }

  /** The watch knows the next change exactly when the journal before it did. */
  lemma NextIsNew(t: Target, h: History, recs: seq<Record>, r: nat, n: nat, recs': seq<Record>)
    requires GoodHistory(t, h) && WatchLeaves(t, h, recs, r, n, recs') && r < n < |h| && h[n].change.Some?
    ensures Known(recs', LiveIdAt(t, h, n)) <==> Known(recs, LiveIdAt(t, h, n))
  {
    var id := LiveIdAt(t, h, n);
    if Known(recs, id) {
      var i :| 0 <= i < |recs| && recs[i].eventId == id;
      assert recs'[i] == recs[i];
    }
    forall i | |recs| <= i < |recs'| ensures recs'[i].eventId != id {
      assert CarriesNew(t, h, recs, r, n, recs'[i]);
      var e: nat :| e < n && IsNew(t, h, recs, r, e) && Carries(t, h, e, recs'[i]);
      CarriesNames(t, h, e, recs'[i]);
      if recs'[i].eventId == id { LiveIdsDiffer(t, h, e, n); }
    }
  }

  lemma NewStandsStill(t: Target, h: History, recs: seq<Record>, r: nat, n: nat, recs': seq<Record>, x: Record, e: nat)
    requires WatchLeaves(t, h, recs, r, n, recs') && e <= n < |h| && IsNew(t, h, recs, r, e)
    requires e == n ==> Carries(t, h, n, x)
    ensures StandsAfter(t, h, recs' + [x], |recs| - 1, e)
  {
    if e < n {
      StandsStill(t, h, recs', x, |recs| - 1, e);
    } else {
      assert Carries(t, h, n, (recs' + [x])[|recs'|]);
    }
  }

  lemma CarriesNewStill(t: Target, h: History, recs: seq<Record>, r: nat, n: nat, x: Record)
    requires CarriesNew(t, h, recs, r, n, x)
    ensures CarriesNew(t, h, recs, r, n + 1, x)
  {
  }

  /** A new change is added at the end. */
  lemma WatchAdds(t: Target, h: History, recs: seq<Record>, r: nat, n: nat, recs': seq<Record>, x: Record)
    requires WatchLeaves(t, h, recs, r, n, recs') && n < |h| && IsNew(t, h, recs, r, n) && Carries(t, h, n, x)
    ensures WatchLeaves(t, h, recs, r, n + 1, recs' + [x])
  {
    forall e: nat | e < n + 1 && IsNew(t, h, recs, r, e) ensures StandsAfter(t, h, recs' + [x], |recs| - 1, e) {
      NewStandsStill(t, h, recs, r, n, recs', x, e);
    }
    forall i | |recs| <= i < |recs' + [x]| ensures CarriesNew(t, h, recs, r, n + 1, (recs' + [x])[i]) {
      if i < |recs'| { CarriesNewStill(t, h, recs, r, n, recs'[i]); }
    }
  }

  /** Anything else adds nothing. */
  lemma WatchSkips(t: Target, h: History, recs: seq<Record>, r: nat, n: nat, recs': seq<Record>)
    requires WatchLeaves(t, h, recs, r, n, recs') && !IsNew(t, h, recs, r, n)
    ensures WatchLeaves(t, h, recs, r, n + 1, recs')
  {
    forall i | |recs| <= i < |recs'| ensures CarriesNew(t, h, recs, r, n + 1, recs'[i]) {
      CarriesNewStill(t, h, recs, r, n, recs'[i]);
    }
  }

  lemma WatchOneMore(t: Target, h: History, recs: seq<Record>, r: nat, n: nat, recs1: seq<Record>, recs2: seq<Record>)
    requires GoodHistory(t, h) && WatchLeaves(t, h, recs, r, n, recs1) && r < n < |h| && h[n].change.Some?
    requires AddsOnce(t, h, n, recs1, recs2)
    ensures WatchLeaves(t, h, recs, r, n + 1, recs2)
  {
    NextIsNew(t, h, recs, r, n, recs1);
    if Known(recs1, LiveIdAt(t, h, n)) {
      WatchSkips(t, h, recs, r, n, recs1);
    } else {
      assert recs2 == recs1 + [recs2[|recs1|]];
      WatchAdds(t, h, recs, r, n, recs1, recs2[|recs1|]);
    }
  }

  /** The journal `log'` is `log` after the changes in (r, n). */
  ghost predicate Watched(t: Target, h: History, log: seq<Record>, r: nat, n: nat, log': seq<Record>) {
    NulFreeLog(log') && WatchLeaves(t, h, ForStream(log, t.streamId), r, n, ForStream(log', t.streamId))
  }

  lemma WatchedNothing(t: Target, h: History, log: seq<Record>, r: nat, n: nat)
    requires NulFreeLog(log) && n <= r + 1
    ensures Watched(t, h, log, r, n, log)
  {
  }

  lemma WatchedNext(t: Target, h: History, log: seq<Record>, r: nat, n: nat, before: seq<Record>, watch: Watcher)
    requires GoodHistory(t, h) && DeliversOnce(t, h, watch) && Watched(t, h, log, r, n, before) && r < n < |h|
    ensures Watched(t, h, log, r, n + 1, watch(before, n))
  {
    var recs, recs1 := ForStream(log, t.streamId), ForStream(before, t.streamId);
    if h[n].change.Some? {
      WatchOneMore(t, h, recs, r, n, recs1, ForStream(watch(before, n), t.streamId));
    } else {
      WatchSkips(t, h, recs, r, n, recs1);
    }
  }

  /** Induction over the revisions watched. */
  lemma {:induction false} AfterWatchKeeps(log: seq<Record>, r: nat, n: nat, watch: Watcher,
                                           kept: (nat, seq<Record>) -> bool)
    requires forall m: nat :: m <= r + 1 ==> kept(m, log)
    requires forall m: nat, before :: r < m < n && kept(m, before) ==> kept(m + 1, watch(before, m))
    ensures kept(n, AfterWatch(log, r, n, watch))
  {
    if n > r + 1 { AfterWatchKeeps(log, r, n - 1, watch, kept); }
  }

  lemma {:induction false} WatchLeft(t: Target, log: seq<Record>, h: History, r: nat, n: nat, watch: Watcher)
    requires NulFreeLog(log) && GoodHistory(t, h) && n <= |h| && DeliversOnce(t, h, watch)
    ensures Watched(t, h, log, r, n, AfterWatch(log, r, n, watch))
  {
    var kept := (m: nat, log': seq<Record>) => Watched(t, h, log, r, m, log');
    forall m: nat | m <= r + 1 ensures kept(m, log) { WatchedNothing(t, h, log, r, m); }
    forall m: nat, before: seq<Record> | r < m < n && kept(m, before) ensures kept(m + 1, watch(before, m)) {
      WatchedNext(t, h, log, r, m, before, watch);
    }
    AfterWatchKeeps(log, r, n, watch, kept);
  }

  // ---------------------------------------------------------------- the exact condition

  /** The list's own records carry no change. */
  lemma ListKnowsNoChange(t: Target, h: History, recs: seq<Record>, items: seq<Item>, now: Time, recs': seq<Record>,
                          e: nat)
    requires GoodHistory(t, h) && e < |h| && h[e].change.Some? && now > EPOCH && Listable(t, items)
    requires KnowsListed(t, recs, items, now, recs')
    ensures Known(recs', LiveIdAt(t, h, e)) <==> Known(recs, LiveIdAt(t, h, e))
  {
    forall i | 0 <= i < |items| ensures LiveIdAt(t, h, e) != SyntheticId(t, items[i], now) {
      LiveIsNotSynthetic(t, h, e, items[i], now);
    }
  }

  /** The journal of a list at revision `r` followed by all changes after `r`. */
  function ListAndWatch(t: Target, log: seq<Record>, h: History, r: nat, rv: string, items: seq<Item>, now: Time,
                        when: nat -> Time): seq<Record>
  {
    AfterWatch(AfterList(t, log, rv, items, now), r, |h|, Watching(t, h, when))
  }

  lemma WatchCarriesNew(t: Target, h: History, recs: seq<Record>, r: nat, recs': seq<Record>, e: nat)
    requires GoodHistory(t, h) && WatchLeaves(t, h, recs, r, |h|, recs')
    requires e < |h| && h[e].change.Some? && Known(recs, LiveIdAt(t, h, e))
    ensures forall i :: |recs| <= i < |recs'| ==> !Carries(t, h, e, recs'[i])
  {
    forall i | |recs| <= i < |recs'| ensures !Carries(t, h, e, recs'[i]) {
      assert CarriesNew(t, h, recs, r, |h|, recs'[i]);
      var d: nat :| d < |h| && IsNew(t, h, recs, r, d) && Carries(t, h, d, recs'[i]);
      CarriesNames(t, h, d, recs'[i]);
      if Carries(t, h, e, recs'[i]) {
        CarriesNames(t, h, e, recs'[i]);
        LiveIdsDiffer(t, h, d, e);
      }
    }
  }

  lemma ListCarriesNothing(t: Target, h: History, items: seq<Item>, now: Time, x: Record, e: nat)
    requires GoodHistory(t, h) && e < |h| && h[e].change.Some? && now > EPOCH && Listable(t, items)
    requires FromList(t, items, now, x)
    ensures !Carries(t, h, e, x)
  {
    if i :| 0 <= i < |items| && x.eventId == SyntheticId(t, items[i], now) {
      LiveIsNotSynthetic(t, h, e, items[i], now);
    }
    if Carries(t, h, e, x) { CarriesNames(t, h, e, x); }
  }

  /** Records that are no BASELINEs leave the last one where it is. */
  lemma {:induction false} LastBaselineStays(recs: seq<Record>, recs': seq<Record>)
    requires recs <= recs' && forall i :: |recs| <= i < |recs'| ==> recs'[i].rtype != Baseline
    ensures LastBaseline(recs') == LastBaseline(recs)
    decreases |recs'|
  {
    if recs' != recs { LastBaselineStays(recs, recs'[..|recs'| - 1]); }
  }

  ghost predicate WellListed(t: Target, log: seq<Record>, h: History, r: nat, items: seq<Item>, now: Time,
                             when: nat -> Time) {
    && NulFreeLog(log) && Lacks(t.streamId, NUL) && GoodHistory(t, h) && r < |h| && Listable(t, items)
    && now > EPOCH && forall e :: when(e) > EPOCH
  }

  /** THE EXACT CONDITION ON A CHANGE: list at revision `r`, on any journal, and then let the watch
      deliver every later change. A change stands after the list's BASELINE if and only if its
      key was not known before the list. */
  lemma {:induction false} ChangeStandsIffUnknown(t: Target, log: seq<Record>, h: History, r: nat, rv: string,
                                                  items: seq<Item>, now: Time, when: nat -> Time, e: nat)
    requires WellListed(t, log, h, r, items, now, when) && r < e < |h| && h[e].change.Some?
    ensures var recs := ForStream(log, t.streamId);
            var recs' := ForStream(ListAndWatch(t, log, h, r, rv, items, now, when), t.streamId);
            && LastBaseline(recs') == |recs|
            && (StandsAfter(t, h, recs', LastBaseline(recs'), e) <==> !Known(recs, LiveIdAt(t, h, e)))
  {
    var log1 := AfterList(t, log, rv, items, now);
    var recs, recs1 := ForStream(log, t.streamId), ForStream(log1, t.streamId);
    ListLeft(t, log, rv, items, now);
    WatchingDeliversOnce(t, h, when);
    WatchLeft(t, log1, h, r, |h|, Watching(t, h, when));
    StandsInRecords(t, h, recs, items, now, recs1, r,
                    ForStream(ListAndWatch(t, log, h, r, rv, items, now, when), t.streamId), e);
  }

  lemma KnownStandsNowhere(t: Target, h: History, recs: seq<Record>, items: seq<Item>, now: Time, recs1: seq<Record>,
                           r: nat, recs2: seq<Record>, e: nat)
    requires GoodHistory(t, h) && Listable(t, items) && now > EPOCH && e < |h| && h[e].change.Some?
    requires recs <= recs1 && forall i :: |recs| <= i < |recs1| ==> FromList(t, items, now, recs1[i])
    requires WatchLeaves(t, h, recs1, r, |h|, recs2) && Known(recs1, LiveIdAt(t, h, e))
    ensures !StandsAfter(t, h, recs2, |recs|, e)
  {
    WatchCarriesNew(t, h, recs1, r, recs2, e);
    forall i | |recs| < i < |recs1| ensures !Carries(t, h, e, recs2[i]) {
      ListCarriesNothing(t, h, items, now, recs1[i], e);
    }
  }

  lemma {:induction false} StandsInRecords(t: Target, h: History, recs: seq<Record>, items: seq<Item>, now: Time,
                                           recs1: seq<Record>, r: nat, recs2: seq<Record>, e: nat)
    requires GoodHistory(t, h) && Listable(t, items) && now > EPOCH && r < e < |h| && h[e].change.Some?
    requires ListLeaves(t, recs, items, now, recs1) && WatchLeaves(t, h, recs1, r, |h|, recs2)
    ensures LastBaseline(recs2) == |recs|
    ensures StandsAfter(t, h, recs2, |recs|, e) <==> !Known(recs, LiveIdAt(t, h, e))
  {
    ListKnowsNoChange(t, h, recs, items, now, recs1, e);
    LastStands(t, h, recs1, r, recs2);
    if Known(recs, LiveIdAt(t, h, e)) {
      KnownStandsNowhere(t, h, recs, items, now, recs1, r, recs2, e);
    } else {
      assert IsNew(t, h, recs1, r, e);
      assert |recs| <= |recs1| - 1;
    }
  }

  lemma {:induction false} LastStands(t: Target, h: History, recs: seq<Record>, r: nat, recs': seq<Record>)
    requires GoodHistory(t, h) && WatchLeaves(t, h, recs, r, |h|, recs')
    ensures LastBaseline(recs') == LastBaseline(recs)
  {
    forall i | |recs| <= i < |recs'| ensures recs'[i].rtype != Baseline {
      assert CarriesNew(t, h, recs, r, |h|, recs'[i]);
      var d: nat :| d < |h| && IsNew(t, h, recs, r, d) && Carries(t, h, d, recs'[i]);
      CarriesNames(t, h, d, recs'[i]);
    }
    LastBaselineStays(recs, recs');
  }

  /** NOTHING AFTER THE LIST IS LOST if and only if no live key already journalled names a later
      change: the guard under which the protocol lists. */
  lemma {:induction false} NothingLostIffNoLiveAfter(t: Target, log: seq<Record>, h: History, r: nat, rv: string,
                                                     items: seq<Item>, now: Time, when: nat -> Time)
    requires WellListed(t, log, h, r, items, now, when)
    ensures NothingLost(t, h, ForStream(ListAndWatch(t, log, h, r, rv, items, now, when), t.streamId), r, |h| - 1)
            <==> NoLiveAfter(t, h, ForStream(log, t.streamId), r)
  {
    var recs := ForStream(log, t.streamId);
    var recs' := ForStream(ListAndWatch(t, log, h, r, rv, items, now, when), t.streamId);
    forall e: nat | r < e < |h| && h[e].change.Some?
      ensures StandsAfter(t, h, recs', LastBaseline(recs'), e) <==> !Known(recs, LiveIdAt(t, h, e))
    {
      ChangeStandsIffUnknown(t, log, h, r, rv, items, now, when, e);
    }
  }

  // ---------------------------------------------------------------- a stale list breaks the claim

  /** A history of three revisions: A appears, A changes, B appears. */
  ghost predicate ThreeRevisions(t: Target, h: History) {
    && GoodHistory(t, h) && Lacks(t.streamId, NUL) && |h| == 3
    && h[0].change.Some? && h[1].change.Some? && h[2].change.Some?
    && h[0].change.value.w == Added && h[1].change.value.w == Modified && h[2].change.value.w == Added
    && IdOf(t, ItemOf(h[0])) == IdOf(t, ItemOf(h[1])) != IdOf(t, ItemOf(h[2]))
    && h[0].change.value.payload != h[1].change.value.payload
  }

  /** A list of A at the first revision, on a journal that knows A's change, and the watch from there. */
  function StaleRun(t: Target, log: seq<Record>, h: History, now: Time, when: nat -> Time): seq<Record>
    requires |h| == 3 && h[0].change.Some?
  {
    ListAndWatch(t, log, h, 0, h[0].text, [ItemOf(h[0])], now, when)
  }

  ghost predicate KnowsOnlyFirstChange(t: Target, recs: seq<Record>, h: History, now: Time)
    requires |h| == 3 && h[0].change.Some? && h[1].change.Some? && h[2].change.Some?
  {
    && Known(recs, LiveIdAt(t, h, 1)) && !Known(recs, LiveIdAt(t, h, 2)) && Adds(t, recs, ItemOf(h[0]), now)
  }

  /** A list of one new object: a BASELINE and the object. */
  lemma OneItemList(t: Target, log: seq<Record>, rv: string, it: Item, now: Time) returns (b: Record, s: Record)
    requires NulFreeLog(log) && Lacks(t.streamId, NUL) && now > EPOCH && Adds(t, ForStream(log, t.streamId), it, now)
    ensures SameBut(b, BaselineRecord(t, rv, now)) && SameBut(s, SyntheticRecord(t, it, now))
    ensures var log' := AfterList(t, log, rv, [it], now);
            NulFreeLog(log') && ForStream(log', t.streamId) == ForStream(log, t.streamId) + [b, s]
  {
    var b0, s0 := BaselineRecord(t, rv, now), SyntheticRecord(t, it, now);
    assert [it][..0] == [];
    AfterOneMore(t, log, rv, [it], now);
    AfterBaseline(t, log, rv, now);
    b := AppendToStream(log, b0, now);
    s := AppendToStream(Append(log, b0, now), s0, now);
    var recs := ForStream(log, t.streamId);
    KnownGrows(recs, b);
    assert recs + [b] + [s] == recs + [b, s];
  }

  /** After the list, A's change is known still and B's is not. */
  lemma KnownAfterList(t: Target, h: History, recs: seq<Record>, now: Time, b: Record, s: Record)
    requires ThreeRevisions(t, h) && now > EPOCH && KnowsOnlyFirstChange(t, recs, h, now)
    requires b.eventId == "" && s.eventId == SyntheticId(t, ItemOf(h[0]), now)
    ensures Known(recs + [b, s], LiveIdAt(t, h, 1)) && !Known(recs + [b, s], LiveIdAt(t, h, 2))
  {
    assert GoodRevision(t, h[0]);
    assert recs + [b, s] == recs + [b] + [s];
    KnownGrows(recs, b);
    KnownGrows(recs + [b], s);
    LiveIsNotSynthetic(t, h, 2, ItemOf(h[0]), now);
  }

  /** A's change is swallowed, B's is not. */
  lemma OneKnownOneNew(t: Target, log: seq<Record>, h: History, watch: Watcher) returns (l: Record)
    requires ThreeRevisions(t, h) && NulFreeLog(log) && DeliversOnce(t, h, watch)
    requires Known(ForStream(log, t.streamId), LiveIdAt(t, h, 1))
               && !Known(ForStream(log, t.streamId), LiveIdAt(t, h, 2))
    ensures ForStream(AfterWatch(log, 0, 3, watch), t.streamId) == ForStream(log, t.streamId) + [l]
              && Carries(t, h, 2, l)
  {
    var recs, log1 := ForStream(log, t.streamId), watch(log, 1);
    assert AfterWatch(log, 0, 1, watch) == log && AfterWatch(log, 0, 2, watch) == log1;
    assert AddsOnce(t, h, 1, recs, ForStream(log1, t.streamId));
    var recs2 := ForStream(watch(log1, 2), t.streamId);
    assert AddsOnce(t, h, 2, recs, recs2);
    l := recs2[|recs|];
    assert recs2 == recs + [l];
  }

  /** The journal of the stale run. */
  lemma StaleRunRecords(t: Target, log: seq<Record>, h: History, now: Time, when: nat -> Time)
    returns (b: Record, s: Record, l: Record)
    requires ThreeRevisions(t, h) && now > EPOCH && NulFreeLog(log) && forall e :: when(e) > EPOCH
    requires KnowsOnlyFirstChange(t, ForStream(log, t.streamId), h, now)
    ensures ForStream(StaleRun(t, log, h, now, when), t.streamId) == ForStream(log, t.streamId) + [b, s] + [l]
    ensures SameBut(b, BaselineRecord(t, h[0].text, now)) && SameBut(s, SyntheticRecord(t, ItemOf(h[0]), now))
    ensures Carries(t, h, 2, l)
  {
    b, s := OneItemList(t, log, h[0].text, ItemOf(h[0]), now);
    KnownAfterList(t, h, ForStream(log, t.streamId), now, b, s);
    WatchingDeliversOnce(t, h, when);
    l := OneKnownOneNew(t, AfterList(t, log, h[0].text, [ItemOf(h[0])], now), h, Watching(t, h, when));
  }

  /** The two live objects of the stale run have different keys. */
  lemma StaleKeys(t: Target, h: History, now: Time, s: Record, l: Record)
    requires ThreeRevisions(t, h) && SameBut(s, SyntheticRecord(t, ItemOf(h[0]), now)) && Carries(t, h, 2, l)
    ensures var ka, kb := KeyOfId(IdOf(t, ItemOf(h[0]))), KeyOfId(IdOf(t, ItemOf(h[2])));
            ka != kb && s.resource.ObjectKey() == ka && l.resource.ObjectKey() == kb
    ensures IsUpsert(s) && IsUpsert(l) && s.payload == ItemOf(h[0]).payload
  {
    assert GoodRevision(t, h[0]) && GoodRevision(t, h[2]);
    var ida, idb := IdOf(t, ItemOf(h[0])), IdOf(t, ItemOf(h[2]));
    if KeyOfId(ida) == KeyOfId(idb) { KeyOfIdIsInjective(ida, idb); }
  }

  /** What the stale journal reduces to: the old A, and B. */
  lemma {:induction false} StaleStates(t: Target, log: seq<Record>, h: History, now: Time, when: nat -> Time)
    requires ThreeRevisions(t, h) && now > EPOCH && NulFreeLog(log) && forall e :: when(e) > EPOCH
    requires KnowsOnlyFirstChange(t, ForStream(log, t.streamId), h, now)
    ensures var red := Reduce(t.streamId, ForStream(StaleRun(t, log, h, now, when), t.streamId));
            var ka, kb := KeyOfId(IdOf(t, ItemOf(h[0]))), KeyOfId(IdOf(t, ItemOf(h[2])));
            && Reported(red) && ka != kb && kb in red.states
            && ka in red.states && red.states[ka].payload == ItemOf(h[0]).payload
  {
    var b, s, l := StaleRunRecords(t, log, h, now, when);
    StaleKeys(t, h, now, s, l);
    ThreeReduce(t.streamId, ForStream(log, t.streamId), b, s, l);
  }

  /** A BASELINE and two objects, after whatever came before. */
  lemma {:induction false} ThreeReduce(streamId: string, front: seq<Record>, b: Record, s: Record, l: Record)
    requires b.rtype == Baseline && IsUpsert(s) && IsUpsert(l)
    ensures var red := Reduce(streamId, front + [b, s] + [l]);
            && Reported(red)
            && red.states == map[s.resource.ObjectKey() := StateOf(streamId, s)]
                                [l.resource.ObjectKey() := StateOf(streamId, l)]
  {
    assert front + [b, s] == front + [b] + [s];
    ReduceSnoc(streamId, front, b);
    ReduceSnoc(streamId, front + [b], s);
    ReduceSnoc(streamId, front + [b, s], l);
  }

  /** A list older than a live event already journalled breaks the claim: whatever else the journal
      holds, after the stale run the reduction reports no gap and shows the old A beside B, which
      the server never held together. */
  lemma {:induction false} StaleListBreaksTheClaim(t: Target, log: seq<Record>, h: History, now: Time,
                                                   when: nat -> Time)
    requires ThreeRevisions(t, h) && now > EPOCH && NulFreeLog(log) && forall e :: when(e) > EPOCH
    requires KnowsOnlyFirstChange(t, ForStream(log, t.streamId), h, now)
    ensures var red := Reduce(t.streamId, ForStream(StaleRun(t, log, h, now, when), t.streamId));
            Reported(red) && forall r: nat :: r < |h| ==> !Agrees(t, red.states, CollAt(t, h, r))
  {
    StaleStates(t, log, h, now, when);
    NoRevisionShows(t, h, Reduce(t.streamId, ForStream(StaleRun(t, log, h, now, when), t.streamId)).states);
  }

  lemma NoRevisionShows(t: Target, h: History, states: map<string, ObjectState>)
    requires ThreeRevisions(t, h)
    requires var ka, kb := KeyOfId(IdOf(t, ItemOf(h[0]))), KeyOfId(IdOf(t, ItemOf(h[2])));
             ka != kb && kb in states && ka in states && states[ka].payload == ItemOf(h[0]).payload
    ensures forall r: nat :: r < |h| ==> !Agrees(t, states, CollAt(t, h, r))
  {
    ThreeCollections(t, h);
    var ida, idb := IdOf(t, ItemOf(h[0])), IdOf(t, ItemOf(h[2]));
    forall r: nat | r < |h| ensures !Agrees(t, states, CollAt(t, h, r)) {
      var c := CollAt(t, h, r);
      if r < 2 {
        assert forall id :: id in c ==> KeyOfId(id) != KeyOfId(idb);
      } else {
        assert ida in c && !Shows(t, states[KeyOfId(ida)], ida, c[ida]);
      }
    }
  }

  lemma ThreeCollections(t: Target, h: History)
    requires ThreeRevisions(t, h)
    ensures var a0, a1, b2 := ItemOf(h[0]), ItemOf(h[1]), ItemOf(h[2]);
            && CollAt(t, h, 0) == map[IdOf(t, a0) := a0]
            && CollAt(t, h, 1) == map[IdOf(t, a0) := a1]
            && CollAt(t, h, 2) == map[IdOf(t, a0) := a1, IdOf(t, b2) := b2]
  {
    var h1, h2, h3 := h[..1], h[..2], h[..3];
    assert h1[..0] == [] && h2[..1] == h1 && h3[..2] == h2;
    assert Coll(t, h1) == ApplyChange(t, map[], h[0]);
    assert Coll(t, h2) == ApplyChange(t, Coll(t, h1), h[1]);
    assert Coll(t, h3) == ApplyChange(t, Coll(t, h2), h[2]);
  }
}
