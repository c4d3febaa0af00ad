/** The claims about whole runs. */
module Safety {
  import opened Events
  import opened Journal
  import opened MemoryStore
  import opened Reducer
  import opened Watch
  import opened Server
  import opened Coverage
  import opened Protocol

  // A reconstruction that reports no gap is real, nothing is lost silently, and a redelivery changes
  // nothing.

  // ---------------------------------------------------------------- runs keep the invariant

  lemma {:induction false} RunKeepsInv(t: Target, trace: seq<Sys>, acts: seq<Action>, i: nat) returns (w: Witness)
    requires IsRun(t, trace, acts) && i <= |acts|
    ensures Inv(t, trace[i], w)
  {
    if i == 0 {
      w := Witness(-1, -1, [-1]);
    } else {
      var v := RunKeepsInv(t, trace, acts, i - 1);
      assert Enabled(t, trace[i - 1], acts[i - 1]) && trace[i - 1 + 1] == Step(t, trace[i - 1], acts[i - 1]);
      w := StepKeepsInv(t, trace[i - 1], v, acts[i - 1]);
    }
  }

  lemma RunSnoc(t: Target, trace: seq<Sys>, acts: seq<Action>, a: Action)
    requires IsRun(t, trace, acts) && Enabled(t, trace[|acts|], a)
    ensures IsRun(t, trace + [Step(t, trace[|acts|], a)], acts + [a])
  {
    var trace', acts' := trace + [Step(t, trace[|acts|], a)], acts + [a];
    forall i | 0 <= i < |acts'|
      ensures Enabled(t, trace'[i], acts'[i]) && trace'[i + 1] == Step(t, trace'[i], acts'[i])
    {
      if i < |acts| { assert trace'[i] == trace[i] && trace'[i + 1] == trace[i + 1] && acts'[i] == acts[i]; }
    }
  }

  lemma NextInRun(t: Target, trace: seq<Sys>, acts: seq<Action>, k: nat)
    requires IsRun(t, trace, acts) && k < |acts|
    ensures Enabled(t, trace[k], acts[k]) && trace[k + 1] == Step(t, trace[k], acts[k])
  {
  }

  // ---------------------------------------------------------------- journals only grow

  lemma {:induction false} ForStreamConcat(log: seq<Record>, more: seq<Record>, s: string)
    ensures ForStream(log + more, s) == ForStream(log, s) + ForStream(more, s)
  {
    if more == [] {
      assert log + more == log;
    } else {
      var n := |more| - 1;
      assert (log + more)[..|log + more| - 1] == log + more[..n];
      ForStreamConcat(log, more[..n], s);
    }
  }

  lemma EventGrows(t: Target, log: seq<Record>, lastRV: string, ev: WatchEvent, now: Time, reply: StoreReply)
    ensures log <= HandleEvent(t, log, lastRV, ev, now, reply).log
  {
  }

  lemma ListGrows(t: Target, log: seq<Record>, rv: string, items: seq<Item>, now: Time, reply: StoreReply)
    ensures log <= HandleList(t, log, rv, items, now, reply).log
  {
    PlayExtends(log, Deliveries(Batch(t, rv, items, now), now));
  }

  lemma TookLog(s: Sys, x: After, now: Time, cursor: nat)
    requires s.session.Some?
    ensures Took(s, x, now, cursor).log == x.log
  {
  }

  lemma LogGrows(t: Target, s: Sys, a: Action)
    requires Enabled(t, s, a)
    ensures s.log <= Step(t, s, a).log
  {
    match a {
      case ListReplies(r, named, items, now, reply) => ListGrows(t, s.log, ListRV(s, a), items, now, reply);
      case Delivers(e, now, reply) =>
        var ev := ObjectEvent(s.history[e].change.value.w, ItemOf(s.history[e]));
        EventGrows(t, s.log, s.lastRV, ev, now, reply);
        TookLog(s, HandleEvent(t, s.log, s.lastRV, ev, now, reply), now, e);
      case Bookmarks(b, now, reply) =>
        var ev := BookmarkEvent(s.history[b].text);
        EventGrows(t, s.log, s.lastRV, ev, now, reply);
        TookLog(s, HandleEvent(t, s.log, s.lastRV, ev, now, reply), now, b);
      case SendsGone(now, reply) =>
        EventGrows(t, s.log, s.lastRV, ErrorEvent(true), now, reply);
        TookLog(s, HandleEvent(t, s.log, s.lastRV, ErrorEvent(true), now, reply), now, 0);
      case _ =>
    }
  }

  /** A step adds records at the end of the stream, if any. */
  lemma StreamGrows(t: Target, s: Sys, a: Action) returns (xs: seq<Record>)
    requires Enabled(t, s, a)
    ensures Recs(t, Step(t, s, a)) == Recs(t, s) + xs
  {
    LogGrows(t, s, a);
    xs := LongerLog(s.log, Step(t, s, a).log, t.streamId);
  }

  lemma LongerLog(log: seq<Record>, log': seq<Record>, s: string) returns (more: seq<Record>)
    requires log <= log'
    ensures ForStream(log', s) == ForStream(log, s) + more
  {
    assert log' == log + log'[|log|..];
    ForStreamConcat(log, log'[|log|..], s);
    more := ForStream(log'[|log|..], s);
  }

  lemma NextGrows(t: Target, trace: seq<Sys>, acts: seq<Action>, k: nat)
    requires IsRun(t, trace, acts) && k < |acts|
    ensures trace[k].log <= trace[k + 1].log
  {
    NextInRun(t, trace, acts, k);
    LogGrows(t, trace[k], acts[k]);
  }

  ghost predicate LogsGrow(trace: seq<Sys>) {
    forall k :: 0 <= k < |trace| - 1 ==> trace[k].log <= trace[k + 1].log
  }

  lemma {:induction false} LaterLogIsLonger(trace: seq<Sys>, i: nat, j: nat)
    requires LogsGrow(trace) && i <= j < |trace|
    ensures trace[i].log <= trace[j].log
    decreases j - i
  {
    if i < j {
      LaterLogIsLonger(trace, i, j - 1);
      assert trace[j - 1].log <= trace[j - 1 + 1].log;
    }
  }

  /** So does a run. */
  lemma {:induction false} RunGrows(t: Target, trace: seq<Sys>, acts: seq<Action>, i: nat, j: nat)
    returns (more: seq<Record>)
    requires IsRun(t, trace, acts) && i <= j <= |acts|
    ensures Recs(t, trace[j]) == Recs(t, trace[i]) + more
  {
    forall k | 0 <= k < |acts| ensures trace[k].log <= trace[k + 1].log { NextGrows(t, trace, acts, k); }
    LaterLogIsLonger(trace, i, j);
    more := LongerLog(trace[i].log, trace[j].log, t.streamId);
  }

  // ---------------------------------------------------------------- time cuts

  /** How many records a cut at `at` takes. */
  function CutLength(recs: seq<Record>, at: Time): (k: nat)
    ensures k <= |recs|
  {
    if at == ZERO_TIME then |recs|
    else if recs == [] || recs[|recs| - 1].observedAt <= at then |recs|
    else CutLength(recs[..|recs| - 1], at)
  }

  lemma {:induction false} CutAll(recs: seq<Record>, at: Time)
    requires at != ZERO_TIME ==> forall i :: 0 <= i < |recs| ==> recs[i].observedAt <= at
    ensures Cut(recs, at) == recs
  {
    if recs != [] { CutAll(recs[..|recs| - 1], at); }
  }

  /** In a journal in time order a cut is a prefix that ends where the time moves on. */
  lemma {:induction false} CutIsPrefix(recs: seq<Record>, clock: Time, at: Time)
    requires InTime(recs, clock)
    ensures Cut(recs, at) == recs[..CutLength(recs, at)]
    ensures Boundary(recs, CutLength(recs, at))
  {
    if at == ZERO_TIME || recs == [] || recs[|recs| - 1].observedAt <= at {
      CutAll(recs, at);
      assert recs[..|recs|] == recs;
    } else {
      var init := recs[..|recs| - 1];
      CutIsPrefix(init, clock, at);
      var k := CutLength(init, at);
      assert recs[..k] == init[..k];
    }
  }

  lemma {:induction false} CutConcat(recs: seq<Record>, xs: seq<Record>, at: Time)
    ensures Cut(recs + xs, at) == Cut(recs, at) + Cut(xs, at)
  {
    if xs == [] {
      assert recs + xs == recs;
    } else {
      var n := |xs| - 1;
      assert (recs + xs)[..|recs + xs| - 1] == recs + xs[..n];
      CutConcat(recs, xs[..n], at);
    }
  }

  lemma {:induction false} CutOneInstant(xs: seq<Record>, now: Time, at: Time)
    requires forall i :: 0 <= i < |xs| ==> xs[i].observedAt == now
    ensures Cut(xs, at) == if at == ZERO_TIME || now <= at then xs else []
  {
    if xs != [] {
      CutOneInstant(xs[..|xs| - 1], now, at);
      assert xs == xs[..|xs| - 1] + [xs[|xs| - 1]];
    }
  }

  // ---------------------------------------------------------------- the claims

  /** The reconstruction is the server's collection at one revision it really passed through. */
  ghost predicate IsReal(t: Target, red: Reduction, h: History) {
    exists r: nat :: r < |h| && Agrees(t, red.states, CollAt(t, h, r))
  }

  /** What a query for the state at `at` reduces. */
  function StateAtCut(t: Target, s: Sys, at: Time): Reduction {
    Reduce(t.streamId, Cut(Recs(t, s), at))
  }

  lemma {:induction false} CutShowsMark(t: Target, s: Sys, w: Witness, at: Time)
    requires Inv(t, s, w) && Reported(StateAtCut(t, s, at))
    ensures var r := w.marks[CutLength(Recs(t, s), at)];
            0 <= r < |s.history| && Agrees(t, StateAtCut(t, s, at).states, CollAt(t, s.history, r))
  {
    var recs := Recs(t, s);
    CutIsPrefix(recs, s.clock, at);
    var k := CutLength(recs, at);
    assert ShowsRevision(t, s.history, recs[..k], w.marks[k]);
  }

  /** NO GAP REPORTED MEANS REAL. In every state of every run, and for every time cut: if
      the reconstruction reports a baseline and no gap, its objects are exactly the
      server's collection at one revision the server really passed through. */
  lemma CompleteCutsAreReal(t: Target, trace: seq<Sys>, acts: seq<Action>, i: nat, at: Time)
    requires IsRun(t, trace, acts) && i <= |acts|
    requires Reported(StateAtCut(t, trace[i], at))
    ensures IsReal(t, StateAtCut(t, trace[i], at), trace[i].history)
  {
    var w := RunKeepsInv(t, trace, acts, i);
    CutShowsMark(t, trace[i], w, at);
  }

  lemma TrackShowsRevision(t: Target, s: Sys, w: Witness) returns (r: nat)
    requires Inv(t, s, w) && s.lastRV != ""
    ensures Reported(StateAtCut(t, s, ZERO_TIME)) && RevisionOf(s.history, s.lastRV) <= r < |s.history|
    ensures Agrees(t, StateAtCut(t, s, ZERO_TIME).states, CollAt(t, s.history, r))
  {
    CutAll(Recs(t, s), ZERO_TIME);
    CutShowsMark(t, s, w, ZERO_TIME);
    r := w.high;
  }

  /** THE STATE IS UP TO DATE. While the collector holds a resource version, the whole journal
      reports a baseline and no gap, and shows a revision not before the one held. */
  lemma JournalKeepsUp(t: Target, trace: seq<Sys>, acts: seq<Action>, i: nat) returns (r: nat)
    requires IsRun(t, trace, acts) && i <= |acts| && trace[i].lastRV != ""
    ensures var s := trace[i];
            && Reported(StateAtCut(t, s, ZERO_TIME)) && RevisionOf(s.history, s.lastRV) <= r < |s.history|
            && Agrees(t, StateAtCut(t, s, ZERO_TIME).states, CollAt(t, s.history, r))
  {
    var w := RunKeepsInv(t, trace, acts, i);
    r := TrackShowsRevision(t, trace[i], w);
  }

  function ListRV(s: Sys, a: Action): string
    requires a.ListReplies? && a.r < |s.history|
  {
    if a.named then s.history[a.r].text else ""
  }

  lemma {:induction false} ListAddsBatch(t: Target, trace: seq<Sys>, acts: seq<Action>, i: nat)
    returns (ys: seq<Record>)
    requires IsRun(t, trace, acts) && i < |acts| && Relists(acts[i])
    ensures acts[i].r < |trace[i].history|
    ensures StoredBatch(t, ListRV(trace[i], acts[i]), acts[i].items, acts[i].now, ys)
    ensures Recs(t, trace[i + 1]) == Recs(t, trace[i]) + ys
  {
    var a := acts[i];
    assert Enabled(t, trace[i], a) && trace[i + 1] == Step(t, trace[i], a);
    var w := RunKeepsInv(t, trace, acts, i);
    ListShape(t, trace[i], a, ListRV(trace[i], a));
    var w';
    w', ys := OfferList(t, trace[i], w, a, ListRV(trace[i], a));
  }

  /** A LIST IS ONE INSTANT. What a list wrote stays one block of the journal, whatever comes later
      and whether or not the store reported the write; and no cut separates a BASELINE from its
      synthetic events: it takes all of the block or none of it. */
  lemma {:induction false} NoCutSplitsAList(t: Target, trace: seq<Sys>, acts: seq<Action>, i: nat, j: nat, at: Time)
    returns (ys: seq<Record>, more: seq<Record>)
    requires IsRun(t, trace, acts) && i < j <= |acts| && Relists(acts[i])
    ensures acts[i].r < |trace[i].history|
    ensures StoredBatch(t, ListRV(trace[i], acts[i]), acts[i].items, acts[i].now, ys)
    ensures Recs(t, trace[j]) == Recs(t, trace[i]) + ys + more
    ensures Cut(Recs(t, trace[j]), at) ==
            Cut(Recs(t, trace[i]), at) + (if at == ZERO_TIME || acts[i].now <= at then ys else []) + Cut(more, at)
  {
    ys := ListAddsBatch(t, trace, acts, i);
    more := RunGrows(t, trace, acts, i + 1, j);
    StoredBatchTimes(t, ListRV(trace[i], acts[i]), acts[i].items, acts[i].now, ys);
    CutConcat(Recs(t, trace[i]) + ys, more, at);
    CutConcat(Recs(t, trace[i]), ys, at);
    CutOneInstant(ys, acts[i].now, at);
  }

  /** NO SILENT LOSS. While the collector holds a resource version, the journal's last
      BASELINE names a revision of the server, and every change after it up to the
      collector's resource version is journalled after that BASELINE. */
  lemma NoSilentLoss(t: Target, trace: seq<Sys>, acts: seq<Action>, i: nat) returns (b: nat, base: nat)
    requires IsRun(t, trace, acts) && i <= |acts| && trace[i].lastRV != ""
    ensures var s, recs := trace[i], Recs(t, trace[i]);
            && b < |recs| && b == LastBaseline(recs)
            && base < |s.history| && recs[b].resource.resourceVersion == s.history[base].text
            && Names(s.history, s.lastRV) && base <= RevisionOf(s.history, s.lastRV)
            && forall e: nat :: base < e <= RevisionOf(s.history, s.lastRV) && e < |s.history| &&
                                s.history[e].change.Some? ==>
                 StandsAfter(t, s.history, recs, b, e)
  {
    var w := RunKeepsInv(t, trace, acts, i);
    b, base := LastBaseline(Recs(t, trace[i])), w.base;
  }

  /** EVERY RELIST IS EXPLAINED. Within one process, between a BASELINE that named its
      revision and the stream's next BASELINE stands a GAP. */
  lemma RelistsAreMarked(t: Target, trace: seq<Sys>, acts: seq<Action>, i: nat, b1: nat, b2: nat)
    requires IsRun(t, trace, acts) && i <= |acts|
    requires var recs := Recs(t, trace[i]);
             && trace[i].runStart <= b1 < b2 < |recs|
             && NamedBaseline(recs, b1) && recs[b2].rtype == Baseline
    ensures GapBetween(Recs(t, trace[i]), b1, b2)
  {
    var w := RunKeepsInv(t, trace, acts, i);
  }

  /** AT LEAST ONCE IS EXACTLY ONCE. Delivering again a change the journal holds changes
      nothing that is stored. */
  lemma RedeliveryChangesNothing(t: Target, trace: seq<Sys>, acts: seq<Action>, i: nat)
    requires IsRun(t, trace, acts) && i < |acts| && acts[i].Delivers?
    requires Known(Recs(t, trace[i]), LiveIdAt(t, trace[i].history, acts[i].e))
    ensures trace[i + 1].log == trace[i].log
  {
    var s, a := trace[i], acts[i];
    assert Enabled(t, s, a) && trace[i + 1] == Step(t, s, a);
    var w := RunKeepsInv(t, trace, acts, i);
    var _ := AppendToStream(s.log, LiveRecord(t, s.history[a.e].change.value.w, ItemOf(s.history[a.e]), a.now), a.now);
  }
}
