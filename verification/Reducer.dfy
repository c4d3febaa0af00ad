/** Reduction of a stream's records into object state (internal/materialize/materialize.go). */
module Reducer {
  import opened Text
  import opened Events
  import opened Journal

  datatype ObjectState = ObjectState(
    clusterId: string, streamId: string, namespace: string, name: string, kind: string,
    payload: string, at: Time)

  datatype Reduction = Reduction(
    states: map<string, ObjectState>, hasBaseline: bool, hasGaps: bool, gapCount: nat,
    lastObservedAt: Time, lastRV: string)

  // ---------------------------------------------------------------- one record at a time

  function StateOf(streamId: string, rec: Record): ObjectState {
    ObjectState(rec.clusterId, streamId, rec.resource.namespace, rec.resource.name, rec.resource.kind,
                rec.payload, rec.observedAt)
  }

  predicate IsDelete(rec: Record) { rec.rtype == Event && rec.watchType == Deleted }

  predicate IsUpsert(rec: Record) {
    rec.rtype == Event && rec.watchType != Deleted && rec.watchType != Bookmark && rec.watchType != Error
    && rec.payload != ""
  }

  function NewRV(rv: string, lastRV: string): string { if rv != "" then rv else lastRV }

  function ReduceStep(red: Reduction, streamId: string, rec: Record): Reduction {
    var r := red.(lastObservedAt := if rec.observedAt != ZERO_TIME then rec.observedAt else red.lastObservedAt);
    match rec.rtype
    case Baseline =>
      r.(hasBaseline := true, hasGaps := false, states := map[],
         lastRV := NewRV(rec.resource.resourceVersion, r.lastRV))
    case Gap => r.(hasGaps := true, gapCount := r.gapCount + 1)
    case Event =>
      if IsDelete(rec) then r.(states := r.states - {rec.resource.ObjectKey()})
      else if IsUpsert(rec) then
        r.(states := r.states[rec.resource.ObjectKey() := StateOf(streamId, rec)],
           lastRV := NewRV(rec.resource.resourceVersion, r.lastRV))
      else r
    case Checkpoint => r.(lastRV := NewRV(rec.checkpoint.GetOr(""), r.lastRV))
    case _ => r
  }

  const NOTHING: Reduction := Reduction(map[], false, false, 0, ZERO_TIME, "")

  function Reduce(streamId: string, recs: seq<Record>): Reduction {
    if recs == [] then NOTHING
    else ReduceStep(Reduce(streamId, recs[..|recs| - 1]), streamId, recs[|recs| - 1])
  }

  /** The reconstruction claims to be whole: it has a baseline and no open gap. */
  predicate Reported(red: Reduction) { red.hasBaseline && !red.hasGaps }

  lemma {:induction false} ReduceSnoc(streamId: string, recs: seq<Record>, rec: Record)
    ensures Reduce(streamId, recs + [rec]) == ReduceStep(Reduce(streamId, recs), streamId, rec)
  {
    assert (recs + [rec])[..|recs|] == recs;
  }

  lemma {:induction false} NextPrefix(streamId: string, recs: seq<Record>, i: nat)
    requires i < |recs|
    ensures Reduce(streamId, recs[..i + 1]) == ReduceStep(Reduce(streamId, recs[..i]), streamId, recs[i])
  {
    assert recs[..i + 1] == recs[..i] + [recs[i]];
    ReduceSnoc(streamId, recs[..i], recs[i]);
  }

  /** The reduce loop. */
  method ReduceLoop(streamId: string, recs: seq<Record>) returns (red: Reduction)
    ensures red == Reduce(streamId, recs)
  {
    var states: map<string, ObjectState> := map[];
    var hasBaseline, hasGaps, gapCount: nat := false, false, 0;
    var lastObservedAt, lastRV := ZERO_TIME, "";
    ghost var so := NOTHING;
    for i := 0 to |recs|
      invariant so == Reduce(streamId, recs[..i])
      invariant so == Reduction(states, hasBaseline, hasGaps, gapCount, lastObservedAt, lastRV)
    {
      var rec := recs[i];
      NextPrefix(streamId, recs, i);
      so := ReduceStep(so, streamId, rec);
      if rec.observedAt != ZERO_TIME { lastObservedAt := rec.observedAt; }
      match rec.rtype {
        case Baseline =>
          hasBaseline, hasGaps, states := true, false, map[];
          if rec.resource.resourceVersion != "" { lastRV := rec.resource.resourceVersion; }
        case Gap =>
          hasGaps, gapCount := true, gapCount + 1;
        case Event =>
          match rec.watchType {
            case Deleted => states := states - {rec.resource.ObjectKey()};
            case Bookmark =>
            case Error =>
            case _ =>
              if |rec.payload| == 0 { continue; }
              states := states[rec.resource.ObjectKey() :=
                ObjectState(rec.clusterId, streamId, rec.resource.namespace, rec.resource.name,
                            rec.resource.kind, rec.payload, rec.observedAt)];
              if rec.resource.resourceVersion != "" { lastRV := rec.resource.resourceVersion; }
          }
        case Checkpoint =>
          if rec.checkpoint.Some? && rec.checkpoint.value != "" { lastRV := rec.checkpoint.value; }
        case _ =>
      }
    }
    assert recs[..|recs|] == recs;
    red := Reduction(states, hasBaseline, hasGaps, gapCount, lastObservedAt, lastRV);
  }

  // ---------------------------------------------------------------- what the reduction means

  /** The place of the last BASELINE, or -1. */
  function LastBaseline(recs: seq<Record>): (b: int)
    ensures -1 <= b < |recs|
    ensures b >= 0 ==> recs[b].rtype == Baseline
    ensures forall i :: b < i < |recs| ==> recs[i].rtype != Baseline
  {
    if recs == [] then -1
    else if recs[|recs| - 1].rtype == Baseline then |recs| - 1
    else LastBaseline(recs[..|recs| - 1])
  }

  /** A deletion of the object, or an event that leaves it with a payload. */
  predicate Touches(rec: Record, key: string) {
    && rec.rtype == Event && rec.resource.ObjectKey() == key
    && (rec.watchType == Deleted ||
        (rec.payload != "" && (rec.watchType == Added || rec.watchType == Modified || rec.watchType == Untyped)))
  }

  /** Record `i` is the last word on `key` since the last BASELINE. */
  ghost predicate LastWord(recs: seq<Record>, key: string, i: nat) {
    && LastBaseline(recs) < i < |recs| && Touches(recs[i], key)
    && forall j :: i < j < |recs| ==> !Touches(recs[j], key)
  }

  lemma LastWordStands(recs: seq<Record>, rec: Record, key: string, i: nat)
    requires rec.rtype != Baseline && !Touches(rec, key)
    ensures LastWord(recs + [rec], key, i) <==> LastWord(recs, key, i)
  {
    var all := recs + [rec];
    assert all[..|recs|] == recs;
    assert LastBaseline(all) == LastBaseline(recs);
    assert forall j :: 0 <= j < |recs| ==> all[j] == recs[j];
  }

  /** What one record does to one key. */
  lemma StepAtKey(red: Reduction, streamId: string, rec: Record, key: string)
    ensures var states := ReduceStep(red, streamId, rec).states;
            if rec.rtype == Baseline then key !in states
            else if !Touches(rec, key) then
              (key in states <==> key in red.states) && (key in states ==> states[key] == red.states[key])
            else if rec.watchType == Deleted then key !in states
            else key in states && states[key] == StateOf(streamId, rec)
  {
  }

  /** An object is present exactly when the last word on it since the last BASELINE is
      not a deletion, and then with that record's payload. */
  lemma {:induction false} StatesMeaning(streamId: string, recs: seq<Record>, key: string)
    ensures key in Reduce(streamId, recs).states <==>
            exists i: nat :: LastWord(recs, key, i) && recs[i].watchType != Deleted
    ensures forall i: nat :: LastWord(recs, key, i) && recs[i].watchType != Deleted ==>
            key in Reduce(streamId, recs).states && Reduce(streamId, recs).states[key] == StateOf(streamId, recs[i])
  {
    if recs != [] {
      var n := |recs| - 1;
      var init, rec := recs[..n], recs[n];
      assert recs == init + [rec];
      StatesMeaning(streamId, init, key);
      StepAtKey(Reduce(streamId, init), streamId, rec, key);
      if rec.rtype == Baseline {
        assert LastBaseline(recs) == n;
      } else if Touches(rec, key) {
        assert LastBaseline(recs) == LastBaseline(init);
        assert LastWord(recs, key, n);
        assert forall i: nat :: LastWord(recs, key, i) ==> i == n;
      } else {
        forall i: nat ensures LastWord(recs, key, i) <==> LastWord(init, key, i) { LastWordStands(init, rec, key, i); }
        assert forall i: nat :: LastWord(init, key, i) ==> recs[i] == init[i];
      }
    }
  }

  /** A present object is what that record says: an ADDED, MODIFIED or untyped event with a payload. */
  lemma {:induction false} PresentObject(streamId: string, recs: seq<Record>, key: string)
    requires key in Reduce(streamId, recs).states
    ensures exists i: nat :: LastWord(recs, key, i) && Describes(recs[i], streamId, Reduce(streamId, recs).states[key])
  {
    StatesMeaning(streamId, recs, key);
  }

  predicate Describes(rec: Record, streamId: string, st: ObjectState) {
    && rec.rtype == Event && (rec.watchType == Added || rec.watchType == Modified || rec.watchType == Untyped)
    && rec.payload != ""
    && st.clusterId == rec.clusterId && st.streamId == streamId && st.namespace == rec.resource.namespace
    && st.name == rec.resource.name && st.kind == rec.resource.kind
    && st.payload == rec.payload && st.at == rec.observedAt
  }

  /** The resource version a record tells: a BASELINE's, a bookmark's, or that of an object it
      leaves present. A deletion tells none. */
  function VersionTold(rec: Record): Option<string> {
    if rec.rtype == Checkpoint && rec.checkpoint.Some? && rec.checkpoint.value != "" then rec.checkpoint
    else if rec.resource.resourceVersion != "" &&
            (rec.rtype == Baseline ||
             (rec.rtype == Event && rec.payload != "" &&
              (rec.watchType == Added || rec.watchType == Modified || rec.watchType == Untyped)))
    then Some(rec.resource.resourceVersion) else None
  }

  function TimeTold(rec: Record): Option<Time> { if rec.observedAt != 0 then Some(rec.observedAt) else None }

  lemma StepTells(red: Reduction, streamId: string, rec: Record)
    ensures ReduceStep(red, streamId, rec).lastRV == VersionTold(rec).GetOr(red.lastRV)
    ensures ReduceStep(red, streamId, rec).lastObservedAt == TimeTold(rec).GetOr(red.lastObservedAt)
  {
  }

  /** The last resource version and the last observed time are what the last record that tells one
      tells, before the last BASELINE or after it. */
  lemma {:induction false} LastMeaning(streamId: string, recs: seq<Record>)
    ensures LastTold(recs, VersionTold, "", Reduce(streamId, recs).lastRV)
    ensures LastTold(recs, TimeTold, 0, Reduce(streamId, recs).lastObservedAt)
  {
    if recs != [] {
      var init, rec := recs[..|recs| - 1], recs[|recs| - 1];
      var red := Reduce(streamId, init);
      LastMeaning(streamId, init);
      StepTells(red, streamId, rec);
      LastToldNext(recs, VersionTold, "", red.lastRV);
      LastToldNext(recs, TimeTold, 0, red.lastObservedAt);
    }
  }

  /** A GAP follows the last BASELINE. */
  ghost predicate OpenGap(recs: seq<Record>) {
    exists i :: LastBaseline(recs) < i < |recs| && recs[i].rtype == Gap
  }

  lemma {:induction false} OpenGapSnoc(recs: seq<Record>, rec: Record)
    ensures OpenGap(recs + [rec]) <==> rec.rtype == Gap || (rec.rtype != Baseline && OpenGap(recs))
    ensures LastBaseline(recs + [rec]) == if rec.rtype == Baseline then |recs| else LastBaseline(recs)
  {
    var all := recs + [rec];
    assert all[..|recs|] == recs && all[|recs|] == rec;
    assert forall i :: 0 <= i < |recs| ==> all[i] == recs[i];
    if rec.rtype != Baseline && OpenGap(recs) {
      var i :| LastBaseline(recs) < i < |recs| && recs[i].rtype == Gap;
      assert all[i].rtype == Gap;
    }
  }

  /** The flags: a BASELINE was seen, and a GAP follows the last one. */
  lemma {:induction false} CoverageMeaning(streamId: string, recs: seq<Record>)
    ensures Reduce(streamId, recs).hasBaseline <==> LastBaseline(recs) >= 0
    ensures Reduce(streamId, recs).hasGaps <==> OpenGap(recs)
  {
    if recs != [] {
      var n := |recs| - 1;
      CoverageMeaning(streamId, recs[..n]);
      OpenGapSnoc(recs[..n], recs[n]);
      assert recs == recs[..n] + [recs[n]];
    }
  }

  lemma {:induction false} GapCountMeaning(streamId: string, recs: seq<Record>)
    ensures Reduce(streamId, recs).gapCount == GapsIn(recs)
  {
    if recs != [] { GapCountMeaning(streamId, recs[..|recs| - 1]); }
  }

  predicate SameHealth(m: Option<StreamMeta>, red: Reduction) {
    match m
    case None => !red.hasGaps && !red.hasBaseline && red.gapCount == 0
    case Some(m) => m.degraded == red.hasGaps && m.available == red.hasBaseline && m.gapCount == red.gapCount
  }

  lemma HealthStep(m: Option<StreamMeta>, red: Reduction, streamId: string, rec: Record)
    requires SameHealth(m, red) && rec.rtype != CoverageChange
    ensures SameHealth(Some(MetaStep(m, rec)), ReduceStep(red, streamId, rec))
  {
    var o := Observe(m, rec);
    assert SameHealth(Some(o), red);
  }

  /** A stream's health row and its reduction tell one story, as long as nothing else
      (a COVERAGE_CHANGE) sets the row. */
  lemma {:induction false} HealthMatchesReduction(streamId: string, recs: seq<Record>)
    requires forall i :: 0 <= i < |recs| ==> recs[i].rtype != CoverageChange
    ensures SameHealth(MetaOf(recs), Reduce(streamId, recs))
  {
    if recs != [] {
      var n := |recs| - 1;
      HealthMatchesReduction(streamId, recs[..n]);
      HealthStep(MetaOf(recs[..n]), Reduce(streamId, recs[..n]), streamId, recs[n]);
    }
  }
}
