/** Timelines of recorded journals. */
module RecordedTimeline {
  import opened Seqs
  import opened Events
  import opened Journal
  import opened MemoryStore
  import opened Watch
  import opened Server
  import opened Coverage
  import opened Protocol
  import opened Safety
  import opened PointLookup
  import opened Simulation
  import opened Timeline

  // The collector writes bookmarks as CHECKPOINT records, so no object's history holds a BOOKMARK and
  // every timeline can be windowed.

  lemma {:induction false} HistoryHasNoBookmark(t: Target, log: seq<Record>, ref: ObjectRef)
    requires ref.streamId == t.streamId && Shaped(t, ForStream(log, t.streamId))
    ensures forall i :: 0 <= i < |HistoryOf(log, ref)| ==> HistoryOf(log, ref)[i].watchType != Bookmark
  {
    var recs, hist := ForStream(log, t.streamId), HistoryOf(log, ref);
    HistoryInStream(log, ref);
    forall i | 0 <= i < |hist| ensures hist[i].watchType != Bookmark {
      FilterMembers(recs, OnObject(ref), hist[i]);
      var k :| 0 <= k < |recs| && recs[k] == hist[i];
      assert ShapedRecord(t, recs[k]);
    }
  }

  /** On every journal a run records, the timeline of every object can be windowed. */
  lemma RunsCanBeWindowed(t: Target, trace: seq<Sys>, acts: seq<Action>, i: nat, namespace: string, name: string,
                          gaps: seq<Record>, baselines: seq<Record>, since: Time, describe: Describe)
    requires IsRun(t, trace, acts) && i <= |acts| && since != ZERO_TIME
    ensures Windows(HistoryOf(trace[i].log, RefTo(t, namespace, name)), gaps, baselines, since, describe)
  {
    var w := RunKeepsInv(t, trace, acts, i);
    HistoryHasNoBookmark(t, trace[i].log, RefTo(t, namespace, name));
    WindowWithoutBookmarks(HistoryOf(trace[i].log, RefTo(t, namespace, name)), gaps, baselines, since, describe);
  }

  /** So on every journal the collector's loops leave. */
  lemma RecordingsCanBeWindowed(t: Target, h: History, before: seq<Process>, p: Process, namespace: string,
                                name: string, gaps: seq<Record>, baselines: seq<Record>, since: Time,
                                describe: Describe)
    requires Recorded(t, h, before, p) && since != ZERO_TIME
    ensures Windows(HistoryOf(Left(t, before, p).log, RefTo(t, namespace, name)), gaps, baselines, since, describe)
  {
    var trace, acts := LoopsFollowProtocol(t, h, before, p);
    RunsCanBeWindowed(t, trace, acts, |acts|, namespace, name, gaps, baselines, since, describe);
  }
}
