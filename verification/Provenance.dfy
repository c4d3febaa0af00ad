/** Where each journalled record comes from. */
module Provenance {
  import opened Text
  import opened Events
  import opened Journal
  import opened Watch
  import opened Server
  import opened Coverage
  import opened Protocol
  import opened Safety
  import opened Simulation

  // Nothing is invented: what a record says is what the server said, field by field.

  /** The reference names the object in the server's terms. */
  predicate NamesItem(t: Target, ref: ResourceRef, it: Item) {
    && ref.group == t.group && ref.version == t.version && ref.kind == t.kind
    && ref.namespace == IdOf(t, it).0 && ref.name == IdOf(t, it).1
    && ref.uid == it.uid && ref.resourceVersion == it.resourceVersion
  }

  /** The reference names the watched resource, at resource version `rv`. */
  predicate NamesStream(t: Target, ref: ResourceRef, rv: string) {
    && ref.group == t.group && ref.version == t.version && ref.kind == t.kind && ref.namespace == t.namespace
    && ref.name == "" && ref.uid == "" && ref.resourceVersion == rv
  }

  /** A change of the server, as the watch delivered it. */
  ghost predicate FromChange(t: Target, h: History, r: Record) {
    exists e: nat :: e < |h| && h[e].change.Some? && r.watchType == h[e].change.value.w &&
      NamesItem(t, r.resource, ItemOf(h[e])) && r.payload == h[e].change.value.payload
  }

  /** An object of the server's collection at some revision. */
  ghost predicate FromCollection(t: Target, h: History, r: Record) {
    r.watchType == Added &&
    exists v: nat, id :: v < |h| && id in CollAt(t, h, v) &&
      NamesItem(t, r.resource, CollAt(t, h, v)[id]) && r.payload == CollAt(t, h, v)[id].payload
  }

  ghost predicate Explained(t: Target, h: History, r: Record) {
    && r.clusterId == t.clusterId && r.streamId == t.streamId
    && match r.rtype
       case Event => if r.synthetic then FromCollection(t, h, r) else FromChange(t, h, r)
       case Baseline =>
         var rv := r.resource.resourceVersion; NamesStream(t, r.resource, rv) && (rv == "" || Names(h, rv))
       case Checkpoint =>
         exists rv :: r.checkpoint == Some(rv) && NamesStream(t, r.resource, rv) && Names(h, rv)
       case Gap =>
         && NamesStream(t, r.resource, "")
         && r.gap.Some? && Names(h, r.gap.value.fromRV) && r.gap.value.toRV == ""
         && r.gap.value.reason == "410 Gone" && r.gap.value.detectedAt == r.observedAt
       case _ => false
  }

  ghost predicate AllExplained(t: Target, h: History, recs: seq<Record>) {
    forall i :: 0 <= i < |recs| ==> Explained(t, h, recs[i])
  }

  // ---------------------------------------------------------------- the server moves on

  lemma NamesGrows(h: History, rev: Revision, rv: string)
    requires Names(h, rv)
    ensures Names(h + [rev], rv)
  {
    var i :| 0 <= i < |h| && h[i].text == rv;
    assert (h + [rev])[i].text == rv;
  }

  lemma FromChangeGrows(t: Target, h: History, rev: Revision, r: Record)
    requires FromChange(t, h, r)
    ensures FromChange(t, h + [rev], r)
  {
    var e: nat :| e < |h| && h[e].change.Some? && r.watchType == h[e].change.value.w &&
      NamesItem(t, r.resource, ItemOf(h[e])) && r.payload == h[e].change.value.payload;
    assert (h + [rev])[e] == h[e];
  }

  lemma FromCollectionGrows(t: Target, h: History, rev: Revision, r: Record)
    requires FromCollection(t, h, r)
    ensures FromCollection(t, h + [rev], r)
  {
    var v: nat, id :| v < |h| && id in CollAt(t, h, v) &&
      NamesItem(t, r.resource, CollAt(t, h, v)[id]) && r.payload == CollAt(t, h, v)[id].payload;
    HistoryGrows(t, h, rev, v);
    assert id in CollAt(t, h + [rev], v);
  }

  lemma ExplainedGrows(t: Target, h: History, rev: Revision, r: Record)
    requires Explained(t, h, r)
    ensures Explained(t, h + [rev], r)
  {
    match r.rtype {
      case Event => if r.synthetic { FromCollectionGrows(t, h, rev, r); } else { FromChangeGrows(t, h, rev, r); }
      case Baseline =>
        if r.resource.resourceVersion != "" { NamesGrows(h, rev, r.resource.resourceVersion); }
      case Checkpoint =>
        var rv :| r.checkpoint == Some(rv) && NamesStream(t, r.resource, rv) && Names(h, rv);
        NamesGrows(h, rev, rv);
      case Gap => NamesGrows(h, rev, r.gap.value.fromRV);
    }
  }

  // ---------------------------------------------------------------- the records the collector writes

  lemma LiveIsExplained(t: Target, h: History, e: nat, now: Time, r: Record)
    requires e < |h| && h[e].change.Some? && SameBut(r, LiveRecord(t, h[e].change.value.w, ItemOf(h[e]), now))
    ensures Explained(t, h, r)
  {
    assert NamesItem(t, r.resource, ItemOf(h[e]));
  }

  lemma SyntheticIsExplained(t: Target, h: History, v: nat, it: Item, now: Time, r: Record)
    requires v < |h| && IdOf(t, it) in CollAt(t, h, v) && CollAt(t, h, v)[IdOf(t, it)] == it
    requires SameBut(r, SyntheticRecord(t, it, now))
    ensures Explained(t, h, r)
  {
    assert NamesItem(t, r.resource, CollAt(t, h, v)[IdOf(t, it)]);
  }

  lemma CheckpointIsExplained(t: Target, h: History, rv: string, now: Time, r: Record)
    requires Names(h, rv) && SameBut(r, CheckpointRecord(t, rv, now))
    ensures Explained(t, h, r)
  {
    assert r.checkpoint == Some(rv) && NamesStream(t, r.resource, rv);
  }

  lemma GapIsExplained(t: Target, h: History, rv: string, now: Time, r: Record)
    requires Names(h, rv) && SameBut(r, GapRecord(t, rv, now))
    ensures Explained(t, h, r)
  {
  }

  lemma BatchIsExplained(t: Target, h: History, v: nat, rv: string, items: seq<Item>, now: Time, ys: seq<Record>)
    requires v < |h| && Lists(t, items, CollAt(t, h, v)) && (rv == "" || rv == h[v].text)
    requires StoredBatch(t, rv, items, now, ys)
    ensures AllExplained(t, h, ys)
  {
    ListedItems(t, items);
    forall i | 0 <= i < |ys| ensures Explained(t, h, ys[i]) {
      if i > 0 {
        assert SameBut(ys[i - 1 + 1], SyntheticRecord(t, items[i - 1], now));
        SyntheticIsExplained(t, h, v, items[i - 1], now, ys[i]);
      }
    }
  }

  // ---------------------------------------------------------------- every step

  /** A record written adds itself to its stream, or nothing. */
  lemma WroteAdds(t: Target, log: seq<Record>, rec: Record, reply: StoreReply) returns (xs: seq<Record>)
    requires NulFreeLog(log) && Lacks(t.streamId, NUL) && rec.streamId == t.streamId && rec.observedAt != ZERO_TIME
    ensures ForStream(Wrote(log, rec, reply), t.streamId) == ForStream(log, t.streamId) + xs
    ensures xs == [] || (|xs| == 1 && SameBut(xs[0], rec))
  {
    xs := [];
    var r := AppendToStream(log, rec, rec.observedAt);
    if (reply.Stored? || reply.durable) && !Known(ForStream(log, t.streamId), rec.eventId) { xs := [r]; }
  }

  lemma ExplainedConcat(t: Target, h: History, recs: seq<Record>, xs: seq<Record>)
    requires AllExplained(t, h, recs) && AllExplained(t, h, xs)
    ensures AllExplained(t, h, recs + xs)
  {
  }

  lemma WritesKeep(t: Target, s: Sys, a: Action)
    requires a.ServerWrites? && Enabled(t, s, a) && AllExplained(t, s.history, Recs(t, s))
    ensures AllExplained(t, Step(t, s, a).history, Recs(t, Step(t, s, a)))
  {
    var recs := Recs(t, s);
    forall i | 0 <= i < |recs| ensures Explained(t, s.history + [a.rev], recs[i]) {
      ExplainedGrows(t, s.history, a.rev, recs[i]);
    }
  }

  lemma ListKeeps(t: Target, s: Sys, w: Witness, a: Action, s': Sys)
    requires a.ListReplies? && Enabled(t, s, a) && s' == Step(t, s, a)
    requires Inv(t, s, w) && AllExplained(t, s.history, Recs(t, s))
    ensures AllExplained(t, s'.history, Recs(t, s'))
  {
    ListShape(t, s, a, ListRV(s, a));
    if Relists(a) {
      var w', ys := OfferList(t, s, w, a, ListRV(s, a));
      BatchIsExplained(t, s.history, a.r, ListRV(s, a), a.items, a.now, ys);
      ExplainedConcat(t, s.history, Recs(t, s), ys);
    }
  }

  lemma NumberSaysNothing(t: Target, h: History, r: Record, rec: Record)
    requires Explained(t, h, rec) && SameBut(r, rec)
    ensures Explained(t, h, r)
  {
  }

  /** A write of an explained record keeps the stream explained. */
  lemma {:induction false} WriteKeeps(t: Target, h: History, log: seq<Record>, rec: Record, reply: StoreReply)
    requires NulFreeLog(log) && Lacks(t.streamId, NUL) && rec.streamId == t.streamId && rec.observedAt != ZERO_TIME
    requires AllExplained(t, h, ForStream(log, t.streamId)) && Explained(t, h, rec)
    ensures AllExplained(t, h, ForStream(Wrote(log, rec, reply), t.streamId))
  {
    var xs := WroteAdds(t, log, rec, reply);
    if xs != [] { NumberSaysNothing(t, h, xs[0], rec); }
    ExplainedConcat(t, h, ForStream(log, t.streamId), xs);
  }

  lemma DeliveryWrites(t: Target, s: Sys, a: Action)
    requires a.Delivers? && Enabled(t, s, a) && GoodHistory(t, s.history)
    ensures var s', rec := Step(t, s, a), LiveRecord(t, s.history[a.e].change.value.w, ItemOf(s.history[a.e]), a.now);
            s'.history == s.history && s'.log == Wrote(s.log, rec, a.reply) && Explained(t, s.history, rec)
  {
    DeliverShape(t, s, a.e, a.now, a.reply);
    var rec := LiveRecord(t, s.history[a.e].change.value.w, ItemOf(s.history[a.e]), a.now);
    LiveIsExplained(t, s.history, a.e, a.now, rec);
  }

  lemma BookmarkWrites(t: Target, s: Sys, a: Action)
    requires a.Bookmarks? && Enabled(t, s, a) && GoodHistory(t, s.history) && s.lastRV != ""
    ensures var s', rec := Step(t, s, a), CheckpointRecord(t, s.history[a.b].text, a.now);
            && s'.history == s.history && (s'.log == s.log || s'.log == Wrote(s.log, rec, a.reply))
            && Explained(t, s.history, rec)
  {
    BookmarkShape(t, s, a.b, a.now, a.reply);
    CheckpointIsExplained(t, s.history, s.history[a.b].text, a.now, CheckpointRecord(t, s.history[a.b].text, a.now));
  }

  lemma GoneWrites(t: Target, s: Sys, a: Action)
    requires a.SendsGone? && Enabled(t, s, a) && Names(s.history, s.lastRV)
    ensures var s', rec := Step(t, s, a), GapRecord(t, s.lastRV, a.now);
            s'.history == s.history && s'.log == Wrote(s.log, rec, a.reply) && Explained(t, s.history, rec)
  {
    GoneShape(t, s, a.now, a.reply);
    GapIsExplained(t, s.history, s.lastRV, a.now, GapRecord(t, s.lastRV, a.now));
  }

  /** What the invariant gives for a watch event. */
  lemma OnWatch(t: Target, s: Sys, w: Witness)
    requires Inv(t, s, w) && s.session.Some?
    ensures NulFreeLog(s.log) && Lacks(t.streamId, NUL) && GoodHistory(t, s.history)
    ensures s.lastRV != "" && Names(s.history, s.lastRV)
  {
  }

  lemma EventKeeps(t: Target, s: Sys, a: Action, s': Sys)
    requires (a.Delivers? || a.Bookmarks? || a.SendsGone?) && Enabled(t, s, a) && s' == Step(t, s, a)
    requires NulFreeLog(s.log) && Lacks(t.streamId, NUL) && GoodHistory(t, s.history)
    requires s.lastRV != "" && Names(s.history, s.lastRV)
    requires AllExplained(t, s.history, Recs(t, s))
    ensures AllExplained(t, s'.history, Recs(t, s'))
  {
    if a.Delivers? {
      var rec := LiveRecord(t, s.history[a.e].change.value.w, ItemOf(s.history[a.e]), a.now);
      DeliveryWrites(t, s, a);
      WriteKeeps(t, s.history, s.log, rec, a.reply);
    } else if a.Bookmarks? {
      BookmarkWrites(t, s, a);
      WriteKeeps(t, s.history, s.log, CheckpointRecord(t, s.history[a.b].text, a.now), a.reply);
    } else {
      GoneWrites(t, s, a);
      WriteKeeps(t, s.history, s.log, GapRecord(t, s.lastRV, a.now), a.reply);
    }
  }

  lemma OtherStreamKeeps(t: Target, s: Sys, w: Witness, a: Action)
    requires a.OtherStream? && Enabled(t, s, a) && Inv(t, s, w)
    ensures Recs(t, Step(t, s, a)) == Recs(t, s) && Step(t, s, a).history == s.history
  {
    AppendElsewhere(s.log, a.rec, a.at, t.streamId);
  }

  lemma StepKeeps(t: Target, s: Sys, w: Witness, a: Action)
    requires Enabled(t, s, a) && Inv(t, s, w) && AllExplained(t, s.history, Recs(t, s))
    ensures AllExplained(t, Step(t, s, a).history, Recs(t, Step(t, s, a)))
  {
    if a.Delivers? || a.Bookmarks? || a.SendsGone? {
      OnWatch(t, s, w);
      EventKeeps(t, s, a, Step(t, s, a));
    } else {
      match a {
        case ServerWrites(rev) => WritesKeep(t, s, a);
        case OtherStream(rec, at) => OtherStreamKeeps(t, s, w, a);
        case ListReplies(r, named, items, now, reply) => ListKeeps(t, s, w, a, Step(t, s, a));
        case _ =>
      }
    }
  }

  // ---------------------------------------------------------------- every run

  /** NOTHING IS INVENTED. In every state of every run, each record of the stream says what the server
      said: an event carries a change, or an object of a listed collection, under the name,
      identity and version the server gave it; a BASELINE, a CHECKPOINT and a GAP name the watched
      resource and a revision. */
  lemma {:induction false} RunIsExplained(t: Target, trace: seq<Sys>, acts: seq<Action>, i: nat)
    requires IsRun(t, trace, acts) && i <= |acts|
    ensures AllExplained(t, trace[i].history, Recs(t, trace[i]))
  {
    if i > 0 {
      RunIsExplained(t, trace, acts, i - 1);
      var w := RunKeepsInv(t, trace, acts, i - 1);
      NextInRun(t, trace, acts, i - 1);
      StepKeeps(t, trace[i - 1], w, acts[i - 1]);
    }
  }

  /** So is what the collector's loops journal. */
  lemma RecordingIsExplained(t: Target, h: History, before: seq<Process>, p: Process)
    requires Recorded(t, h, before, p)
    ensures AllExplained(t, Reached(t, h, before, p).history, LeftRecords(t, before, p))
  {
    var trace, acts := LoopsFollowProtocol(t, h, before, p);
    RunIsExplained(t, trace, acts, |acts|);
  }

  /** Two objects of one stream share an object key only if they share namespace and name; where an
      object names no namespace, the stream's counts. */
  lemma NamespacesStayApart(t: Target, a: Item, b: Item)
    requires GoodItem(t, a) && GoodItem(t, b)
    ensures RefFromObject(t, a).ObjectKey() == RefFromObject(t, b).ObjectKey() <==>
            (if a.namespace == "" then t.namespace else a.namespace) ==
            (if b.namespace == "" then t.namespace else b.namespace) && a.name == b.name
  {
    if RefFromObject(t, a).ObjectKey() == RefFromObject(t, b).ObjectKey() {
      KeyOfIdIsInjective(IdOf(t, a), IdOf(t, b));
    }
  }
}
