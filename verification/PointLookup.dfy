/** One object looked up alone. */
module PointLookup {
  import opened Text
  import opened Seqs
  import opened Events
  import opened Journal
  import opened MemoryStore
  import opened Reducer
  import opened Watch
  import opened Coverage
  import opened Protocol
  import opened Safety

  // Against the reduction of its whole stream (internal/storage/memory.go,
  // internal/materialize/materialize.go).

  /** The last of `recs` on the object, unless it is a deletion. */
  function LastOn(recs: seq<Record>, ref: ObjectRef): Option<Record> {
    if recs == [] then None
    else
      var r := recs[|recs| - 1];
      if !OfObject(r, ref) then LastOn(recs[..|recs| - 1], ref)
      else if r.watchType == Deleted then None
      else Some(r)
  }

  /** A lookup at `ts` is the last word on the object in the stream's cut at `ts`. */
  lemma {:induction false} LookupIsLastOn(recs: seq<Record>, ref: ObjectRef, ts: Time)
    requires ts != ZERO_TIME
    ensures LastState(Filter(recs, OnObject(ref)), ts) == LastOn(Cut(recs, ts), ref)
  {
    if recs != [] {
      var init, r := recs[..|recs| - 1], recs[|recs| - 1];
      var f, c := Filter(init, OnObject(ref)), Cut(init, ts);
      LookupIsLastOn(init, ref, ts);
      assert Filter(recs, OnObject(ref)) == if OfObject(r, ref) then f + [r] else f;
      assert Cut(recs, ts) == if r.observedAt <= ts then c + [r] else c;
      LastStateSnoc(f, r, ts);
      LastOnSnoc(c, r, ref);
    }
  }

  /** The answer if the last word is `r`. */
  function Word(r: Record): Option<Record> { if r.watchType == Deleted then None else Some(r) }

  lemma {:induction false} LastStateSnoc(rs: seq<Record>, r: Record, ts: Time)
    ensures LastState(rs + [r], ts) == if r.observedAt > ts then LastState(rs, ts) else Word(r)
  {
    assert (rs + [r])[..|rs|] == rs;
  }

  lemma {:induction false} LastOnSnoc(rs: seq<Record>, r: Record, ref: ObjectRef)
    ensures LastOn(rs + [r], ref) == if OfObject(r, ref) then Word(r) else LastOn(rs, ref)
  {
    assert (rs + [r])[..|rs|] == rs;
  }

  lemma {:induction false} HistoryInStream(log: seq<Record>, ref: ObjectRef)
    ensures HistoryOf(log, ref) == Filter(ForStream(log, ref.streamId), OnObject(ref))
  {
    if log != [] {
      var init, r := log[..|log| - 1], log[|log| - 1];
      HistoryInStream(init, ref);
      if r.streamId == ref.streamId { FilterSnoc(ForStream(init, ref.streamId), r, OnObject(ref)); }
    }
  }

  /** Record `i` is the last on the object, in all of `recs`. */
  ghost predicate FinalWord(recs: seq<Record>, ref: ObjectRef, i: nat) {
    i < |recs| && OfObject(recs[i], ref) && forall j :: i < j < |recs| ==> !OfObject(recs[j], ref)
  }

  lemma {:induction false} LastOnMeaning(recs: seq<Record>, ref: ObjectRef)
    ensures LastOn(recs, ref).Some? <==> exists i: nat :: FinalWord(recs, ref, i) && recs[i].watchType != Deleted
    ensures forall i: nat :: FinalWord(recs, ref, i) && recs[i].watchType != Deleted ==>
              LastOn(recs, ref) == Some(recs[i])
  {
    if recs != [] {
      var n := |recs| - 1;
      var init := recs[..n];
      LastOnMeaning(init, ref);
      if OfObject(recs[n], ref) {
        assert FinalWord(recs, ref, n);
        assert forall i: nat :: FinalWord(recs, ref, i) ==> i == n;
      } else {
        forall i: nat ensures FinalWord(recs, ref, i) <==> FinalWord(init, ref, i) {
          assert forall j :: 0 <= j < n ==> init[j] == recs[j];
        }
      }
    }
  }

  function RefTo(t: Target, namespace: string, name: string): ObjectRef {
    ObjectRef(t.clusterId, t.streamId, namespace, name)
  }

  function KeyOfRef(ref: ObjectRef): string { ObjectKeyOf(ref.namespace, ref.name) }

  lemma OnObjectTouchesKey(t: Target, r: Record, ref: ObjectRef)
    requires ShapedRecord(t, r) && ref == RefTo(t, ref.namespace, ref.name)
    requires Lacks(ref.namespace, '/') && Lacks(ref.name, '/')
    ensures OfObject(r, ref) <==> Touches(r, KeyOfRef(ref))
  {
    if Touches(r, KeyOfRef(ref)) {
      ObjectKeyIsInjective(r.resource, ResourceRef("", "", "", ref.namespace, ref.name, "", ""));
    }
  }

  /** The object was last written before the last BASELINE, which did not list it. */
  ghost predicate DroppedByList(recs: seq<Record>, ref: ObjectRef) {
    exists i: nat :: FinalWord(recs, ref, i) && recs[i].watchType != Deleted && i < LastBaseline(recs)
  }

  lemma {:induction false} LookupAgainstStates(t: Target, recs: seq<Record>, ref: ObjectRef)
    requires Shaped(t, recs) && ref == RefTo(t, ref.namespace, ref.name)
    requires Lacks(ref.namespace, '/') && Lacks(ref.name, '/')
    ensures var states, key := Reduce(t.streamId, recs).states, KeyOfRef(ref);
            && (key in states ==>
                  LastOn(recs, ref).Some? && states[key] == StateOf(t.streamId, LastOn(recs, ref).value))
            && (LastOn(recs, ref).Some? ==> (key in states <==> !DroppedByList(recs, ref)))
  {
    var key := KeyOfRef(ref);
    StatesMeaning(t.streamId, recs, key);
    LastOnMeaning(recs, ref);
    forall i | 0 <= i < |recs| ensures OfObject(recs[i], ref) <==> Touches(recs[i], key) {
      OnObjectTouchesKey(t, recs[i], ref);
    }
    forall i: nat ensures LastWord(recs, key, i) <==> FinalWord(recs, ref, i) && i > LastBaseline(recs) { }
    if LastOn(recs, ref).Some? {
      var i: nat :| FinalWord(recs, ref, i) && recs[i].watchType != Deleted;
      assert ShapedRecord(t, recs[i]);
      assert i != LastBaseline(recs);
    }
  }

  /** At the zero time the lookup finds nothing, though the state then takes every record. At any
      other the two agree, but for objects a later list dropped. */
  ghost predicate LookupAgrees(t: Target, s: Sys, ref: ObjectRef, ts: Time) {
    var found, red := LastState(HistoryOf(s.log, ref), ts), StateAtCut(t, s, ts);
    if ts == ZERO_TIME then found.None?
    else
      && (KeyOfRef(ref) in red.states ==> found.Some? && red.states[KeyOfRef(ref)] == StateOf(t.streamId, found.value))
      && (found.Some? ==> (KeyOfRef(ref) in red.states <==> !DroppedByList(Cut(Recs(t, s), ts), ref)))
  }

  lemma {:induction false} NothingAtZero(recs: seq<Record>)
    requires forall i :: 0 <= i < |recs| ==> recs[i].observedAt > ZERO_TIME
    ensures LastState(recs, ZERO_TIME).None?
  {
    if recs != [] { NothingAtZero(recs[..|recs| - 1]); }
  }

  lemma LookupAtZero(t: Target, s: Sys, w: Witness, ref: ObjectRef)
    requires Inv(t, s, w) && ref.streamId == t.streamId
    ensures LastState(HistoryOf(s.log, ref), ZERO_TIME).None?
  {
    var recs, hist := Recs(t, s), HistoryOf(s.log, ref);
    HistoryInStream(s.log, ref);
    forall i | 0 <= i < |hist| ensures hist[i].observedAt > ZERO_TIME {
      FilterMembers(recs, OnObject(ref), hist[i]);
    }
    NothingAtZero(hist);
  }

  lemma {:induction false} CutIsShaped(t: Target, s: Sys, w: Witness, ts: Time)
    requires Inv(t, s, w)
    ensures Shaped(t, Cut(Recs(t, s), ts))
  {
    CutIsPrefix(Recs(t, s), s.clock, ts);
  }

  lemma LookupInState(t: Target, s: Sys, w: Witness, ref: ObjectRef, ts: Time)
    requires Inv(t, s, w) && ref == RefTo(t, ref.namespace, ref.name)
    requires Lacks(ref.namespace, '/') && Lacks(ref.name, '/')
    ensures LookupAgrees(t, s, ref, ts)
  {
    if ts == ZERO_TIME {
      LookupAtZero(t, s, w, ref);
    } else {
      HistoryInStream(s.log, ref);
      LookupIsLastOn(Recs(t, s), ref, ts);
      CutIsShaped(t, s, w, ts);
      LookupAgainstStates(t, Cut(Recs(t, s), ts), ref);
    }
  }

  /** POINT LOOKUP AGREES WITH THE FULL STATE. On every journal a run records: an object the
      reduction at `ts` shows is what a lookup at `ts` returns, with the same payload; and
      what a lookup returns the reduction shows, except when a later list dropped it. */
  lemma LookupMatchesState(t: Target, trace: seq<Sys>, acts: seq<Action>, i: nat, namespace: string, name: string,
                           ts: Time)
    requires IsRun(t, trace, acts) && i <= |acts|
    requires Lacks(namespace, '/') && Lacks(name, '/')
    ensures LookupAgrees(t, trace[i], RefTo(t, namespace, name), ts)
  {
    var w := RunKeepsInv(t, trace, acts, i);
    LookupInState(t, trace[i], w, RefTo(t, namespace, name), ts);
  }
}
