/** The list/watch/gap loop of one stream (internal/watch/stream.go). */
module Watch {
  import opened Text
  import opened Events
  import opened Identity
  import opened Journal
  import MemoryStore

  /** One stream's collector configuration: the resource it lists and its identifier. */
  datatype Target = Target(
    streamId: string, clusterId: string, group: string, version: string, kind: string, namespace: string)

  /** An API object as a list or a watch event carries it. */
  datatype Item = Item(namespace: string, name: string, uid: string, resourceVersion: string, payload: string)

  /** Nanoseconds from the zero time to the Unix epoch. */
  const EPOCH: Time := 62_135_596_800 * 1_000_000_000

  function UnixNano(t: Time): int { t - EPOCH }

  // ---------------------------------------------------------------- the records the collector writes

  /** An object of a namespaced list that names no namespace is in the list's. */
  function RefFromObject(t: Target, it: Item): ResourceRef {
    ResourceRef(t.group, t.version, t.kind, if it.namespace == "" then t.namespace else it.namespace,
                it.name, it.uid, it.resourceVersion)
  }

  function StreamRef(t: Target, rv: string): ResourceRef {
    ResourceRef(t.group, t.version, t.kind, t.namespace, "", "", rv)
  }

  function BaselineRecord(t: Target, listRV: string, now: Time): Record {
    Record(t.clusterId, t.streamId, Baseline, "", 0, now, Untyped, false, StreamRef(t, listRV), "", None, None, None)
  }

  function SyntheticId(t: Target, it: Item, now: Time): string {
    EventId(t.streamId, RefFromObject(t, it), Added, UnixNano(now))
  }

  function SyntheticRecord(t: Target, it: Item, now: Time): Record {
    Record(t.clusterId, t.streamId, Event, SyntheticId(t, it, now), 0, now, Added, true,
           RefFromObject(t, it), it.payload, None, None, None)
  }

  function Synthetics(t: Target, items: seq<Item>, now: Time): seq<Record> {
    if items == [] then []
    else Synthetics(t, items[..|items| - 1], now) + [SyntheticRecord(t, items[|items| - 1], now)]
  }

  /** The batch a list writes: a BASELINE and one synthetic ADDED per item. */
  function Batch(t: Target, listRV: string, items: seq<Item>, now: Time): seq<Record> {
    [BaselineRecord(t, listRV, now)] + Synthetics(t, items, now)
  }

  function LiveId(t: Target, w: WatchType, it: Item): string {
    EventId(t.streamId, RefFromObject(t, it), w, 0)
  }

  function LiveRecord(t: Target, w: WatchType, it: Item, now: Time): Record {
    Record(t.clusterId, t.streamId, Event, LiveId(t, w, it), 0, now, w, false,
           RefFromObject(t, it), it.payload, None, None, None)
  }

  function CheckpointRecord(t: Target, rv: string, now: Time): Record {
    Record(t.clusterId, t.streamId, Checkpoint, "", 0, now, Untyped, false, StreamRef(t, rv), "", None, None, Some(rv))
  }

  function GapRecord(t: Target, fromRV: string, now: Time): Record {
    Record(t.clusterId, t.streamId, Gap, "", 0, now, Untyped, false, StreamRef(t, ""), "",
           Some(GapInfo(fromRV, "", "410 Gone", now)), None, None)
  }

  function Deliveries(recs: seq<Record>, now: Time): (ds: seq<Delivery>)
    ensures |ds| == |recs|
    ensures forall i :: 0 <= i < |recs| ==> ds[i] == Delivery(recs[i], now)
  {
    if recs == [] then []
    else Deliveries(recs[..|recs| - 1], now) + [Delivery(recs[|recs| - 1], now)]
  }

  // ---------------------------------------------------------------- resource versions

  /** `strconv.ParseInt(s, 10, 64)`; `None` is its error. */
  function ParseInt(s: string): Option<int> {
    var signed := s != "" && (s[0] == '-' || s[0] == '+');
    var digits := if signed then s[1..] else s;
    if digits == "" || !AllDigits(digits) then None
    else
      var n: int := Value(digits);
      var v := if signed && s[0] == '-' then -n else n;
      if -0x8000_0000_0000_0000 <= v < 0x8000_0000_0000_0000 then Some(v) else None
  }

  /** Opaque resource versions are incomparable. */
  predicate ResourceVersionBefore(a: string, b: string) {
    ParseInt(a).Some? && ParseInt(b).Some? && ParseInt(a).value < ParseInt(b).value
  }

  /** The text is an integer of 64 bits: digits, with or without a sign before them. */
  predicate Denotes(s: string, v: int) {
    && -0x8000_0000_0000_0000 <= v < 0x8000_0000_0000_0000
    && (|| (s != "" && AllDigits(s) && v == Value(s))
        || (|s| > 1 && s[0] == '+' && AllDigits(s[1..]) && v == Value(s[1..]))
        || (|s| > 1 && s[0] == '-' && AllDigits(s[1..]) && v == -(Value(s[1..]) as int)))
  }

  lemma ParsesWhatDenotes(s: string, v: int)
    ensures ParseInt(s) == Some(v) <==> Denotes(s, v)
  {
    if s != "" && AllDigits(s) { assert IsDigit(s[0]); }
  }

  /** A resource version is before another exactly when both are integers and it is the smaller one. */
  lemma VersionsCompare(a: string, b: string)
    ensures ResourceVersionBefore(a, b) <==> exists m, n :: Denotes(a, m) && Denotes(b, n) && m < n
  {
    if ResourceVersionBefore(a, b) {
      ParsesWhatDenotes(a, ParseInt(a).value);
      ParsesWhatDenotes(b, ParseInt(b).value);
    }
    if m, n :| Denotes(a, m) && Denotes(b, n) && m < n {
      ParsesWhatDenotes(a, m);
      ParsesWhatDenotes(b, n);
    }
  }

  /** In particular for decimal numbers. */
  lemma {:induction false} NumbersCompare(m: nat, n: nat)
    requires m < 0x8000_0000_0000_0000 && n < 0x8000_0000_0000_0000
    ensures ResourceVersionBefore(Dec(m), Dec(n)) <==> m < n
  {
    ValueOfDec(m);
    ValueOfDec(n);
    ParsesWhatDenotes(Dec(m), m);
    ParsesWhatDenotes(Dec(n), n);
  }

  // ---------------------------------------------------------------- one step of the collector

  datatype WatchEvent =
    | ObjectEvent(w: WatchType, item: Item)   // ADDED, MODIFIED, DELETED
    | UnreadableEvent                         // an object of an unexpected type
    | BookmarkEvent(rv: string)
    | ErrorEvent(gone: bool)                  // 410 Gone, or any other watch error

  /** What the store does with an append: it succeeds, or it reports a failure, and then
      the write may or may not have become durable. */
  datatype StoreReply = Stored | Failed(durable: bool)

  datatype Outcome = Continue | Gone | Reconnect | StoreFailure

  datatype After = After(log: seq<Record>, lastRV: string, outcome: Outcome)

  function Wrote(log: seq<Record>, rec: Record, reply: StoreReply): seq<Record> {
    if reply.Stored? || reply.durable then Append(log, rec, rec.observedAt) else log
  }

  /** One watch event (the body of the `drainWatch` loop). */
  function HandleEvent(t: Target, log: seq<Record>, lastRV: string, ev: WatchEvent, now: Time,
                       reply: StoreReply): After {
    match ev
    case ObjectEvent(w, it) =>
      var log' := Wrote(log, LiveRecord(t, w, it, now), reply);
      if reply.Failed? then After(log', lastRV, StoreFailure)
      else After(log', if it.resourceVersion != "" then it.resourceVersion else lastRV, Continue)
    case UnreadableEvent => After(log, lastRV, Reconnect)
    case BookmarkEvent(rv) =>
      if rv == "" || (lastRV != "" && ResourceVersionBefore(rv, lastRV)) then After(log, lastRV, Continue)
      else
        var log' := Wrote(log, CheckpointRecord(t, rv, now), reply);
        if reply.Failed? then After(log', lastRV, StoreFailure) else After(log', rv, Continue)
    case ErrorEvent(gone) =>
      if gone then
        var log' := Wrote(log, GapRecord(t, lastRV, now), reply);
        if reply.Failed? then After(log', lastRV, StoreFailure) else After(log', "", Gone)
      else After(log, lastRV, Reconnect)
  }

  /** A bookmark is skipped exactly when it and the version held are integers and it is the smaller
      one; any other is journalled and held. One that names no version is nothing. */
  lemma BookmarkIsSkipped(t: Target, log: seq<Record>, lastRV: string, rv: string, now: Time)
    ensures var x := HandleEvent(t, log, lastRV, BookmarkEvent(rv), now, Stored);
            && x.outcome == Continue
            && if rv == "" || exists m, n :: Denotes(rv, m) && Denotes(lastRV, n) && m < n
               then x.log == log && x.lastRV == lastRV
               else
                 && |x.log| == |log| + 1 && log <= x.log && x.lastRV == rv
                 && x.log[|log|].rtype == Checkpoint && x.log[|log|].checkpoint == Some(rv)
  {
    VersionsCompare(rv, lastRV);
  }

  /** One list reply (`listAndBaseline` and the use `runStream` makes of it). The batch is
      one transaction: all of it becomes durable or none. */
  function HandleList(t: Target, log: seq<Record>, listRV: string, items: seq<Item>, now: Time,
                      reply: StoreReply): After {
    var log' :=
      if reply.Stored? || reply.durable then Play(log, Deliveries(Batch(t, listRV, items, now), now)) else log;
    if reply.Failed? then After(log', "", StoreFailure) else After(log', listRV, Continue)
  }

  // ---------------------------------------------------------------- the loops

  /** A watch event, and what the collectors of other streams appended to the shared store since
      the last answer. */
  datatype Arrival = Arrival(others: seq<Delivery>, ev: WatchEvent, now: Time, reply: StoreReply)

  /** The watch events up to the first that ends the loop; a channel that closes, an idle
      timeout and a cancelled context all leave the state as it is. */
  function Drain(t: Target, log: seq<Record>, lastRV: string, arrivals: seq<Arrival>): After
    decreases |arrivals|
  {
    if arrivals == [] then After(log, lastRV, Reconnect)
    else
      var log1 := Play(log, arrivals[0].others);
      var a := HandleEvent(t, log1, lastRV, arrivals[0].ev, arrivals[0].now, arrivals[0].reply);
      if a.outcome == Continue then Drain(t, a.log, a.lastRV, arrivals[1..]) else a
  }

  /** An object that cannot be read, or an error that is not 410, ends the watch and leaves journal
      and resource version as they are, whatever comes after; a 410 is journalled as a GAP from the
      version held, which is given up. */
  lemma {:induction false} ErrorsEndTheWatch(t: Target, log: seq<Record>, lastRV: string, arrivals: seq<Arrival>)
    requires arrivals != [] && (arrivals[0].ev.UnreadableEvent? || arrivals[0].ev.ErrorEvent?)
    ensures var a, x := arrivals[0], Drain(t, log, lastRV, arrivals);
            var log1 := Play(log, a.others);
            if a.ev == ErrorEvent(true) then
              a.reply.Stored? ==>
                x.outcome == Gone && x.lastRV == "" && |x.log| == |log1| + 1 && log1 <= x.log &&
                x.log[|log1|].rtype == Gap && x.log[|log1|].gap.Some? && x.log[|log1|].gap.value.fromRV == lastRV
            else x.outcome == Reconnect && x.lastRV == lastRV && x.log == log1
  {
  }

  datatype ListReply = ListError | Listed(rv: string, items: seq<Item>, now: Time, reply: StoreReply)

  /** What the API server answers in one turn of the outer loop. */
  datatype Round = Round(others: seq<Delivery>, list: ListReply, watchStarts: bool, arrivals: seq<Arrival>)

  function RunRound(t: Target, log: seq<Record>, lastRV: string, r: Round): After {
    var log1 := Play(log, r.others);
    if lastRV == "" && r.list.ListError? then After(log1, "", Continue)
    else
      var a := if lastRV == "" then HandleList(t, log1, r.list.rv, r.list.items, r.list.now, r.list.reply)
               else After(log1, lastRV, Continue);
      if a.outcome == StoreFailure || a.lastRV == "" || !r.watchStarts then a
      else Drain(t, a.log, a.lastRV, r.arrivals)
  }

  function Run(t: Target, log: seq<Record>, lastRV: string, rounds: seq<Round>): After
    decreases |rounds|
  {
    if rounds == [] then After(log, lastRV, Continue)
    else
      var a := RunRound(t, log, lastRV, rounds[0]);
      if a.outcome == StoreFailure then a else Run(t, a.log, a.lastRV, rounds[1..])
  }

  predicate TimedOthers(ds: seq<Delivery>) { forall i :: 0 <= i < |ds| ==> ds[i].now != ZERO_TIME }

  predicate TimedArrivals(arrivals: seq<Arrival>) {
    forall k :: 0 <= k < |arrivals| ==> arrivals[k].now != ZERO_TIME && TimedOthers(arrivals[k].others)
  }

  predicate TimedRound(r: Round) {
    (r.list.Listed? ==> r.list.now != ZERO_TIME) && TimedOthers(r.others) && TimedArrivals(r.arrivals)
  }

  predicate Timed(rounds: seq<Round>) { forall i :: 0 <= i < |rounds| ==> TimedRound(rounds[i]) }

  class Collector {
    const target: Target
    const store: MemoryStore.Store
    var lastRV: string

    constructor (target: Target, store: MemoryStore.Store)
      ensures this.target == target && this.store == store && lastRV == ""
    {
      this.target, this.store, lastRV := target, store, "";
    }

    method Write(rec: Record, reply: StoreReply)
      requires store.Valid() && rec.observedAt != ZERO_TIME
      modifies store
      ensures store.Valid() && store.log == Wrote(old(store.log), rec, reply)
    {
      if reply.Stored? || reply.durable {
        var _ := store.Append(rec, rec.observedAt);
      }
    }

    method ListAndBaseline(listRV: string, items: seq<Item>, now: Time, reply: StoreReply) returns (failed: bool)
      requires store.Valid() && now != ZERO_TIME
      modifies store
      ensures store.Valid() && store.log == HandleList(target, old(store.log), listRV, items, now, reply).log
      ensures failed <==> reply.Failed?
    {
      var recs := [BaselineRecord(target, listRV, now)];
      for i := 0 to |items|
        invariant recs == Batch(target, listRV, items[..i], now)
      {
        assert items[..i + 1][..i] == items[..i];
        recs := recs + [SyntheticRecord(target, items[i], now)];
      }
      assert items[..|items|] == items;
      if reply.Stored? || reply.durable {
        var _ := store.Appends(Deliveries(recs, now));
      }
      failed := reply.Failed?;
    }

    method DrainWatch(arrivals: seq<Arrival>) returns (outcome: Outcome)
      requires store.Valid()
      requires TimedArrivals(arrivals)
      modifies this, store
      ensures store.Valid()
      ensures After(store.log, lastRV, outcome) == Drain(target, old(store.log), old(lastRV), arrivals)
    {
      var i := 0;
      while i < |arrivals|
        invariant 0 <= i <= |arrivals| && store.Valid()
        invariant Drain(target, old(store.log), old(lastRV), arrivals) ==
                    Drain(target, store.log, lastRV, arrivals[i..])
      {
        var a := arrivals[i];
        assert arrivals[i..][0] == a && arrivals[i..][1..] == arrivals[i + 1..];
        var _ := store.Appends(a.others);
        match a.ev {
          case ObjectEvent(w, it) =>
            Write(LiveRecord(target, w, it, a.now), a.reply);
            if a.reply.Failed? { return StoreFailure; }
            if it.resourceVersion != "" { lastRV := it.resourceVersion; }
          case UnreadableEvent =>
            return Reconnect;
          case BookmarkEvent(rv) =>
            if rv == "" || (lastRV != "" && ResourceVersionBefore(rv, lastRV)) {
              i := i + 1;
              continue;
            }
            Write(CheckpointRecord(target, rv, a.now), a.reply);
            if a.reply.Failed? { return StoreFailure; }
            lastRV := rv;
          case ErrorEvent(gone) =>
            if gone {
              Write(GapRecord(target, lastRV, a.now), a.reply);
              if a.reply.Failed? { return StoreFailure; }
              lastRV := "";
              return Gone;
            }
            return Reconnect;
        }
        i := i + 1;
      }
      outcome := Reconnect;
    }

    method RunStream(rounds: seq<Round>) returns (outcome: Outcome)
      requires store.Valid() && Timed(rounds)
      modifies this, store
      ensures store.Valid()
      ensures After(store.log, lastRV, outcome) == Run(target, old(store.log), "", rounds)
    {
      lastRV := "";
      for n := 0 to |rounds|
        invariant store.Valid()
        invariant Run(target, old(store.log), "", rounds) == Run(target, store.log, lastRV, rounds[n..])
      {
        var r := rounds[n];
        assert rounds[n..][0] == r && rounds[n..][1..] == rounds[n + 1..];
        assert TimedRound(r);
        var _ := store.Appends(r.others);
        if lastRV == "" {
          if r.list.ListError? { continue; }
          var failed := ListAndBaseline(r.list.rv, r.list.items, r.list.now, r.list.reply);
          if failed { return StoreFailure; }
          if r.list.rv == "" { continue; }
          lastRV := r.list.rv;
        }
        if !r.watchStarts { continue; }
        var ended := DrainWatch(r.arrivals);
        if ended == StoreFailure { return StoreFailure; }
      }
      outcome := Continue;
    }
  }
}
