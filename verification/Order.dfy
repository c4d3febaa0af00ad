/** In what order cuts show revisions. */
module Order {
  import opened Text
  import opened Events
  import opened Identity
  import opened MemoryStore
  import opened Reducer
  import opened Watch
  import opened Server
  import opened Coverage
  import opened Protocol
  import opened Safety

  // A bookmark can run ahead of the last change, and a list after it can come from an older cache.
  // The revision shown then falls, but not the collection: nothing changed in between. So beside the
  // marks of the invariant a second sequence is carried along, which shows the same and never falls.

  // ---------------------------------------------------------------- the claim

  /** Revision `r` is what the cut at `at` shows, if it reports no gap. */
  ghost predicate ShowsAt(t: Target, recs: seq<Record>, h: History, at: Time, r: int) {
    var red := Reduce(t.streamId, Cut(recs, at));
    Reported(red) ==> 0 <= r < |h| && Agrees(t, red.states, CollAt(t, h, r))
  }

  /** Never falling. The zero time cuts nothing and is the latest. */
  ghost predicate NeverFalls(shown: Time -> int) {
    forall at1, at2 :: at2 == ZERO_TIME || (at1 != ZERO_TIME && at1 <= at2) ==> shown(at1) <= shown(at2)
  }

  ghost predicate ShowsInOrder(t: Target, recs: seq<Record>, h: History, shown: Time -> int) {
    (forall at :: ShowsAt(t, recs, h, at, shown(at))) && NeverFalls(shown)
  }

  ghost predicate Rising(marks: seq<int>) {
    forall i, j :: 0 <= i < j < |marks| ==> marks[i] <= marks[j]
  }

  /** A later cut takes no fewer records. */
  lemma {:induction false} LaterCutIsLonger(recs: seq<Record>, at1: Time, at2: Time)
    requires at2 == ZERO_TIME || (at1 != ZERO_TIME && at1 <= at2)
    ensures CutLength(recs, at1) <= CutLength(recs, at2)
  {
    if at2 != ZERO_TIME && recs != [] && recs[|recs| - 1].observedAt > at2 {
      LaterCutIsLonger(recs[..|recs| - 1], at1, at2);
    }
  }

  ghost function MarkAt(recs: seq<Record>, marks: seq<int>): Time -> int
    requires |marks| == |recs| + 1
  {
    at => marks[CutLength(recs, at)]
  }

  lemma MarksRise(recs: seq<Record>, marks: seq<int>)
    requires |marks| == |recs| + 1 && Rising(marks)
    ensures NeverFalls(MarkAt(recs, marks))
  {
    forall at1, at2 | at2 == ZERO_TIME || (at1 != ZERO_TIME && at1 <= at2)
      ensures MarkAt(recs, marks)(at1) <= MarkAt(recs, marks)(at2)
    {
      LaterCutIsLonger(recs, at1, at2);
    }
  }

  lemma {:induction false} MarksShow(t: Target, h: History, recs: seq<Record>, clock: Time, v: Witness, at: Time)
    requires InTime(recs, clock) && Marked(t, h, recs, v)
    ensures ShowsAt(t, recs, h, at, MarkAt(recs, v.marks)(at))
  {
    CutIsPrefix(recs, clock, at);
    var k := CutLength(recs, at);
    if Complete(t, recs[..k]) { assert ShowsRevision(t, h, recs[..k], v.marks[k]); }
  }

  lemma {:induction false} MarksShowInOrder(t: Target, h: History, recs: seq<Record>, clock: Time, v: Witness)
    requires InTime(recs, clock) && Marked(t, h, recs, v) && Rising(v.marks)
    ensures ShowsInOrder(t, recs, h, MarkAt(recs, v.marks))
  {
    MarksRise(recs, v.marks);
    forall at ensures ShowsAt(t, recs, h, at, MarkAt(recs, v.marks)(at)) { MarksShow(t, h, recs, clock, v, at); }
  }

  // ---------------------------------------------------------------- marks that never fall

  /** `v` shows what `w` shows, never falls, and ends in a revision with the same collection. */
  ghost predicate Keeps(t: Target, h: History, recs: seq<Record>, w: Witness, v: Witness) {
    && Marked(t, h, recs, v) && Rising(v.marks)
    && w.high <= v.high < |h| && Quiet(h, w.high, v.high)
  }

  lemma SameCollection(t: Target, h: History, recs: seq<Record>, a: int, b: int)
    requires ShowsRevision(t, h, recs, a) && a <= b < |h| && Quiet(h, a, b)
    ensures ShowsRevision(t, h, recs, b)
  {
    QuietKeepsCollection(t, h, a, b);
  }

  /** The marks after more records: up to `top`, which shows what `w'` shows. */
  lemma MarkedOn(t: Target, h: History, recs: seq<Record>, xs: seq<Record>, w': Witness, v: Witness, v': Witness)
    requires Marked(t, h, recs, v) && Marked(t, h, recs + xs, w')
    requires forall k :: |recs| < k <= |recs + xs| ==> w'.marks[k] == w'.high
    requires w'.high <= v'.high < |h| && Quiet(h, w'.high, v'.high)
    requires v'.marks == v.marks + Repeat(|xs|, v'.high) && (xs == [] ==> v'.high == v.high)
    ensures Marked(t, h, recs + xs, v')
  {
    var all := recs + xs;
    forall k | 0 <= k <= |all| && Boundary(all, k) && Complete(t, all[..k])
      ensures ShowsRevision(t, h, all[..k], v'.marks[k])
    {
      if k <= |recs| {
        assert all[..k] == recs[..k] && Boundary(recs, k);
      } else {
        SameCollection(t, h, all[..k], w'.high, v'.high);
      }
    }
  }

  lemma RisingOn(marks: seq<int>, n: nat, top: int)
    requires Rising(marks) && marks != [] && marks[|marks| - 1] <= top
    ensures Rising(marks + Repeat(n, top))
  {
  }

  lemma JournalledIsKnown(t: Target, h: History, recs: seq<Record>, b: int, e: nat)
    requires e < |h| && h[e].change.Some? && -1 <= b && StandsAfter(t, h, recs, b, e)
    ensures Known(recs, LiveIdAt(t, h, e))
  {
    var i: nat :| b < i < |recs| && Carries(t, h, e, recs[i]);
    EventIdIsNotEmpty(t.streamId, RefFromObject(t, ItemOf(h[e])), h[e].change.value.w, 0);
    assert recs[i].eventId == LiveIdAt(t, h, e);
  }

  /** A list at or after the last one shows the collection of every revision the marks have reached:
      a change in between would be journalled, and the list would know it. */
  lemma ListIsQuiet(t: Target, h: History, recs: seq<Record>, w: Witness, r: int, top: int)
    requires GoodHistory(t, h) && NothingLost(t, h, recs, w.base, w.high) && Quiet(h, w.high, top)
    requires NoLiveAfter(t, h, recs, r) && w.base <= r
    ensures Quiet(h, r, top)
  {
    forall e | 0 <= e < |h| && r < e <= top ensures h[e].change.None? {
      if e <= w.high && h[e].change.Some? {
        JournalledIsKnown(t, h, recs, LastBaseline(recs), e);
      }
    }
  }

  // ---------------------------------------------------------------- every step carries them along

  /** The server moves on. */
  lemma WriteKeeps(t: Target, h: History, rev: Revision, recs: seq<Record>, w: Witness, v: Witness)
    requires Keeps(t, h, recs, w, v)
    ensures Keeps(t, h + [rev], recs, w, v)
  {
    MarkedUnderGrowth(t, h, rev, recs, v);
  }

  /** The journal moves on, under one history. */
  lemma RecordsKeep(t: Target, h: History, recs: seq<Record>, xs: seq<Record>, w: Witness, w': Witness, v: Witness)
    returns (v': Witness)
    requires Keeps(t, h, recs, w, v) && Marked(t, h, recs, w) && Marked(t, h, recs + xs, w') && w'.high < |h|
    requires w'.marks == w.marks + Repeat(|xs|, w'.high)
    requires Quiet(h, w'.high, v.high)
    ensures Keeps(t, h, recs + xs, w', v')
  {
    var top := Max(v.high, w'.high);
    v' := Witness(w'.base, top, v.marks + Repeat(|xs|, top));
    MarkedOn(t, h, recs, xs, w', v, v');
    RisingOn(v.marks, |xs|, top);
  }

  lemma StepLists(t: Target, s: Sys, a: Action)
    requires Enabled(t, s, a)
    ensures Step(t, s, a).lists == if Relists(a) then s.lists + [a.r] else s.lists
    ensures Step(t, s, a).history == if a.ServerWrites? then s.history + [a.rev] else s.history
  {
  }

  lemma StepKeeps(t: Target, s: Sys, w: Witness, a: Action, w': Witness, v: Witness) returns (v': Witness)
    requires Enabled(t, s, a) && (Relists(a) ==> LastList(s.lists) <= a.r)
    requires Inv(t, s, w) && Inv(t, Step(t, s, a), w') && Follows(w, w', a)
    requires Keeps(t, s.history, Recs(t, s), w, v)
    ensures Keeps(t, Step(t, s, a).history, Recs(t, Step(t, s, a)), w', v')
  {
    var s' := Step(t, s, a);
    var xs := StreamGrows(t, s, a);
    StepLists(t, s, a);
    if a.ServerWrites? {
      WriteKeeps(t, s.history, a.rev, Recs(t, s), w, v);
      v' := v;
    } else {
      if Relists(a) { ListIsQuiet(t, s.history, Recs(t, s), w, a.r, v.high); }
      v' := RecordsKeep(t, s.history, Recs(t, s), xs, w, w', v);
    }
  }

  lemma NextKeeps(t: Target, s: Sys, a: Action, s': Sys, w: Witness, v: Witness) returns (w': Witness, v': Witness)
    requires Enabled(t, s, a) && s' == Step(t, s, a) && Rising(s'.lists)
    requires Inv(t, s, w) && Keeps(t, s.history, Recs(t, s), w, v)
    ensures Inv(t, s', w') && Keeps(t, s'.history, Recs(t, s'), w', v')
  {
    StepLists(t, s, a);
    if Relists(a) && s.lists != [] { assert s'.lists[|s.lists| - 1] <= s'.lists[|s.lists|]; }
    w' := StepKeepsInv(t, s, w, a);
    v' := StepKeeps(t, s, w, a, w', v);
  }

  lemma EarlierListsRise(t: Target, s: Sys, a: Action)
    requires Enabled(t, s, a) && Rising(Step(t, s, a).lists)
    ensures Rising(s.lists)
  {
    StepLists(t, s, a);
    assert s.lists <= Step(t, s, a).lists;
  }

  ghost predicate KeepsOrder(t: Target, s: Sys, w: Witness, v: Witness) {
    Inv(t, s, w) && Keeps(t, s.history, Recs(t, s), w, v)
  }

  lemma {:induction false} RunKeepsOrder(t: Target, trace: seq<Sys>, acts: seq<Action>, i: nat)
    returns (w: Witness, v: Witness)
    requires IsRun(t, trace, acts) && i <= |acts| && Rising(trace[i].lists)
    ensures KeepsOrder(t, trace[i], w, v)
  {
    if i == 0 {
      w := Witness(-1, -1, [-1]);
      v := w;
    } else {
      NextInRun(t, trace, acts, i - 1);
      EarlierListsRise(t, trace[i - 1], acts[i - 1]);
      w, v := RunKeepsOrder(t, trace, acts, i - 1);
      w, v := NextKeeps(t, trace[i - 1], acts[i - 1], trace[i], w, v);
    }
  }

  /** TIME RUNS FORWARD. As long as no list that reached the journal is older than one before it,
      one assignment of revisions to times, nowhere falling, serves all cuts of a state. Bookmarks,
      failed writes and lists that never reached the journal do not matter. */
  lemma LaterCutsShowLaterRevisions(t: Target, trace: seq<Sys>, acts: seq<Action>, i: nat) returns (shown: Time -> int)
    requires IsRun(t, trace, acts) && i <= |acts| && Rising(trace[i].lists)
    ensures ShowsInOrder(t, Recs(t, trace[i]), trace[i].history, shown)
  {
    var w, v := RunKeepsOrder(t, trace, acts, i);
    shown := MarkAt(Recs(t, trace[i]), v.marks);
    MarksShowInOrder(t, trace[i].history, Recs(t, trace[i]), trace[i].clock, v);
  }

  // ---------------------------------------------------------------- an older list goes back

  /** Object A appears, then object B. */
  ghost predicate TwoRevisions(t: Target, h: History) {
    && GoodHistory(t, h) && Lacks(t.streamId, NUL) && |h| == 2
    && h[0].change.Some? && h[1].change.Some?
    && h[0].change.value.w == Added && h[1].change.value.w == Added
    && IdOf(t, ItemOf(h[0])) != IdOf(t, ItemOf(h[1]))
  }

  lemma TwoCollections(t: Target, h: History)
    requires TwoRevisions(t, h)
    ensures var a, b := ItemOf(h[0]), ItemOf(h[1]);
            CollAt(t, h, 0) == map[IdOf(t, a) := a] && CollAt(t, h, 1) == map[IdOf(t, a) := a, IdOf(t, b) := b]
  {
    var h1, h2 := h[..1], h[..2];
    assert h1[..0] == [] && h2[..1] == h1 && h1[0] == h[0] && h2[1] == h[1];
    assert Coll(t, h1) == ApplyChange(t, Coll(t, []), h[0]) && Coll(t, h2) == ApplyChange(t, Coll(t, h1), h[1]);
  }

  /** States that agree with one of the two collections agree with that one only. */
  lemma OnlyOneAgrees(t: Target, h: History, states: map<string, ObjectState>, r: int, r': int)
    requires TwoRevisions(t, h) && 0 <= r < 2 && 0 <= r' < 2
    requires Agrees(t, states, CollAt(t, h, r)) && Agrees(t, states, CollAt(t, h, r'))
    ensures r == r'
  {
    TwoCollections(t, h);
    var ida, idb := IdOf(t, ItemOf(h[0])), IdOf(t, ItemOf(h[1]));
    assert GoodRevision(t, h[0]) && GoodRevision(t, h[1]);
    if KeyOfId(ida) == KeyOfId(idb) { KeyOfIdIsInjective(ida, idb); }
    assert (r == 1 || r' == 1) ==> KeyOfId(idb) in states;
    assert (r == 0 || r' == 0) ==> KeyOfId(idb) !in states;
  }

  lemma BatchHasNoLiveKey(t: Target, h: History, listRV: string, items: seq<Item>, now: Time, ys: seq<Record>, e: nat)
    requires GoodHistory(t, h) && StoredBatch(t, listRV, items, now, ys) && EPOCH < now
    requires forall i :: 0 <= i < |items| ==> GoodItem(t, items[i])
    requires e < |h| && h[e].change.Some?
    ensures !Known(ys, LiveIdAt(t, h, e))
  {
    EventIdIsNotEmpty(t.streamId, RefFromObject(t, ItemOf(h[e])), h[e].change.value.w, 0);
    forall i | 0 <= i < |ys| ensures ys[i].eventId != LiveIdAt(t, h, e) {
      if i > 0 {
        assert SameBut(ys[i - 1 + 1], SyntheticRecord(t, items[i - 1], now));
        LiveIsNotSynthetic(t, h, e, items[i - 1], now);
      }
    }
  }

  /** One process lists the second revision and stops, the next lists the first. */
  function TwoLists(newer: seq<Item>, older: seq<Item>, now1: Time, now2: Time): seq<Action> {
    [ProcessStarts, ListReplies(1, true, newer, now1, Stored), ProcessStops,
     ProcessStarts, ListReplies(0, true, older, now2, Stored)]
  }

  lemma FirstListIsEnabled(t: Target, h: History, r: nat, items: seq<Item>, now: Time)
    requires r < |h| && Lists(t, items, CollAt(t, h, r)) && EPOCH < now
    ensures Enabled(t, Step(t, Init(h), ProcessStarts), ListReplies(r, true, items, now, Stored))
  {
    assert Recs(t, Init(h)) == [];
  }

  lemma NewerList(t: Target, h: History, newer: seq<Item>, now: Time) returns (trace: seq<Sys>)
    requires TwoRevisions(t, h) && Lists(t, newer, CollAt(t, h, 1)) && EPOCH < now
    ensures IsRun(t, trace, [ProcessStarts, ListReplies(1, true, newer, now, Stored)])
    ensures trace[1].history == h && Recs(t, trace[1]) == []
    ensures var s := trace[2];
            s.alive && s.session.None? && s.history == h && s.lists == [1] && s.clock == now && s.listClock == now
  {
    var a := ListReplies(1, true, newer, now, Stored);
    var s1 := Step(t, Init(h), ProcessStarts);
    assert Recs(t, Init(h)) == [] && Recs(t, s1) == [];
    assert IsRun(t, [Init(h), s1], [ProcessStarts]);
    FirstListIsEnabled(t, h, 1, newer, now);
    RunSnoc(t, [Init(h), s1], [ProcessStarts], a);
    trace := [Init(h), s1, Step(t, s1, a)];
    assert [Init(h), s1] + [Step(t, s1, a)] == trace && [ProcessStarts] + [a] == [ProcessStarts, a];
  }

  /** A restart between two lists. */
  lemma Restarts(t: Target, trace: seq<Sys>, acts: seq<Action>) returns (trace': seq<Sys>)
    requires IsRun(t, trace, acts) && trace[|acts|].alive
    ensures IsRun(t, trace', acts + [ProcessStops, ProcessStarts]) && |trace'| == |trace| + 2 && trace <= trace'
    ensures var s, s' := trace[|acts|], trace'[|acts| + 2];
            s' == s.(lastRV := "", session := None, runStart := |Recs(t, s)|)
  {
    var s := trace[|acts|];
    var s1 := Step(t, s, ProcessStops);
    RunSnoc(t, trace, acts, ProcessStops);
    RunSnoc(t, trace + [s1], acts + [ProcessStops], ProcessStarts);
    trace' := trace + [s1] + [Step(t, s1, ProcessStarts)];
    assert acts + [ProcessStops] + [ProcessStarts] == acts + [ProcessStops, ProcessStarts];
  }

  /** After the newer list and a restart the older one may come. */
  lemma OlderListIsEnabled(t: Target, h: History, s: Sys, newer: seq<Item>, older: seq<Item>, now1: Time, now2: Time)
    requires TwoRevisions(t, h) && EPOCH < now1 < now2 && s.history == h
    requires Lists(t, newer, CollAt(t, h, 1)) && Lists(t, older, CollAt(t, h, 0))
    requires s.alive && s.lastRV == "" && s.clock == now1 && s.listClock == now1
    requires StoredBatch(t, h[1].text, newer, now1, Recs(t, s))
    ensures Enabled(t, s, ListReplies(0, true, older, now2, Stored))
  {
    ListedItemsAreGood(t, h, 1, newer);
    forall e: nat | e < |h| && 0 < e && h[e].change.Some? ensures !Known(Recs(t, s), LiveIdAt(t, h, e)) {
      BatchHasNoLiveKey(t, h, h[1].text, newer, now1, Recs(t, s), e);
    }
  }

  /** The first process and the start of the second. */
  function NewerOnly(newer: seq<Item>, now: Time): seq<Action> {
    [ProcessStarts, ListReplies(1, true, newer, now, Stored), ProcessStops, ProcessStarts]
  }

  lemma AfterNewerList(t: Target, h: History, newer: seq<Item>, now: Time) returns (trace: seq<Sys>)
    requires TwoRevisions(t, h) && Lists(t, newer, CollAt(t, h, 1)) && EPOCH < now
    ensures IsRun(t, trace, NewerOnly(newer, now))
    ensures var s := trace[4];
            && s.alive && s.lastRV == "" && s.history == h && s.lists == [1] && s.clock == now && s.listClock == now
            && StoredBatch(t, h[1].text, newer, now, Recs(t, s))
  {
    var acts := [ProcessStarts, ListReplies(1, true, newer, now, Stored)];
    var trace2 := NewerList(t, h, newer, now);
    var ys := ListAddsBatch(t, trace2, acts, 1);
    assert Recs(t, trace2[2]) == ys;
    trace := Restarts(t, trace2, acts);
    assert acts + [ProcessStops, ProcessStarts] == NewerOnly(newer, now);
  }

  /** The run, and what its journal holds. */
  lemma OlderList(t: Target, h: History, newer: seq<Item>, older: seq<Item>, now1: Time, now2: Time)
    returns (trace: seq<Sys>, ys: seq<Record>, zs: seq<Record>)
    requires TwoRevisions(t, h) && EPOCH < now1 < now2
    requires Lists(t, newer, CollAt(t, h, 1)) && Lists(t, older, CollAt(t, h, 0))
    ensures IsRun(t, trace, TwoLists(newer, older, now1, now2)) && trace[5].history == h && trace[5].lists == [1, 0]
    ensures StoredBatch(t, h[1].text, newer, now1, ys) && StoredBatch(t, h[0].text, older, now2, zs)
    ensures Recs(t, trace[5]) == ys + zs
  {
    var a := ListReplies(0, true, older, now2, Stored);
    var trace4 := AfterNewerList(t, h, newer, now1);
    var s := trace4[4];
    ys := Recs(t, s);
    OlderListIsEnabled(t, h, s, newer, older, now1, now2);
    RunSnoc(t, trace4, NewerOnly(newer, now1), a);
    trace := trace4 + [Step(t, s, a)];
    assert NewerOnly(newer, now1) + [a] == TwoLists(newer, older, now1, now2);
    zs := ListAddsBatch(t, trace, TwoLists(newer, older, now1, now2), 4);
    StepLists(t, s, a);
  }

  /** What the two cuts show. */
  lemma {:induction false} CutsOfTwoLists(t: Target, h: History, recs: seq<Record>, newer: seq<Item>, older: seq<Item>,
                                          now1: Time, now2: Time, ys: seq<Record>, zs: seq<Record>)
    requires GoodHistory(t, h) && |h| == 2 && EPOCH < now1 < now2
    requires Lists(t, newer, CollAt(t, h, 1)) && Lists(t, older, CollAt(t, h, 0))
    requires StoredBatch(t, h[1].text, newer, now1, ys) && StoredBatch(t, h[0].text, older, now2, zs)
    requires recs == ys + zs
    ensures var red := Reduce(t.streamId, Cut(recs, now1)); Reported(red) && Agrees(t, red.states, CollAt(t, h, 1))
    ensures var red := Reduce(t.streamId, Cut(recs, ZERO_TIME)); Reported(red) && Agrees(t, red.states, CollAt(t, h, 0))
  {
    StoredBatchTimes(t, h[1].text, newer, now1, ys);
    StoredBatchTimes(t, h[0].text, older, now2, zs);
    CutConcat(ys, zs, now1);
    CutOneInstant(ys, now1, now1);
    CutOneInstant(zs, now2, now1);
    CutAll(recs, ZERO_TIME);
    ListedItemsAreGood(t, h, 1, newer);
    ListedItemsAreGood(t, h, 0, older);
    BatchReduces(t, [], h[1].text, newer, now1, ys);
    BatchReduces(t, ys, h[0].text, older, now2, zs);
    assert ys + [] == ys && [] + ys == ys;
  }

  /** AN OLDER LIST GOES BACK: with it no such assignment exists, though every guard is met and both
      cuts report no gap. */
  lemma OlderListGoesBack(t: Target, h: History, newer: seq<Item>, older: seq<Item>, now1: Time, now2: Time)
    returns (trace: seq<Sys>, acts: seq<Action>)
    requires TwoRevisions(t, h) && EPOCH < now1 < now2
    requires Lists(t, newer, CollAt(t, h, 1)) && Lists(t, older, CollAt(t, h, 0))
    ensures IsRun(t, trace, acts) && !Rising(trace[|acts|].lists)
    ensures forall shown :: !ShowsInOrder(t, Recs(t, trace[|acts|]), trace[|acts|].history, shown)
  {
    var ys, zs;
    acts := TwoLists(newer, older, now1, now2);
    trace, ys, zs := OlderList(t, h, newer, older, now1, now2);
    var recs := Recs(t, trace[5]);
    NotRising(trace[5].lists);
    CutsOfTwoLists(t, h, recs, newer, older, now1, now2, ys, zs);
    forall shown ensures !ShowsInOrder(t, recs, h, shown) { NotInOrder(t, h, recs, now1, shown); }
  }

  lemma NotRising(lists: seq<nat>)
    requires lists == [1, 0]
    ensures !Rising(lists)
  {
    assert lists[0] > lists[1];
  }

  lemma {:induction false} NotInOrder(t: Target, h: History, recs: seq<Record>, at: Time, shown: Time -> int)
    requires TwoRevisions(t, h) && at != ZERO_TIME
    requires var red := Reduce(t.streamId, Cut(recs, at)); Reported(red) && Agrees(t, red.states, CollAt(t, h, 1))
    requires var red := Reduce(t.streamId, Cut(recs, ZERO_TIME));
             Reported(red) && Agrees(t, red.states, CollAt(t, h, 0))
    ensures !ShowsInOrder(t, recs, h, shown)
  {
    if ShowsInOrder(t, recs, h, shown) {
      assert ShowsAt(t, recs, h, at, shown(at)) && ShowsAt(t, recs, h, ZERO_TIME, shown(ZERO_TIME));
      OnlyOneAgrees(t, h, Reduce(t.streamId, Cut(recs, at)).states, 1, shown(at));
      OnlyOneAgrees(t, h, Reduce(t.streamId, Cut(recs, ZERO_TIME)).states, 0, shown(ZERO_TIME));
    }
  }
}
