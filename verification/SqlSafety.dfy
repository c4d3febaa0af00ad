/** The protocol's main claim, read from SQLite. */
module SqlSafety {
  import opened Events
  import opened Reducer
  import Watch
  import opened Server
  import opened Protocol
  import opened Safety
  import opened Simulation
  import opened SqlStore
  import opened SqlRefines

  /** The reconstruction of a stream from the rows up to `at`. */
  function FromSql(w: World, rows: seq<Row>, s: string, at: Time): Reduction {
    Reduce(s, EventsUntil(rows, w.codec.parse, s, BoundText(w, at)))
  }

  lemma SameAgreement(t: Watch.Target, a: Reduction, b: Reduction, c: Collection)
    requires SameView(a, b) && Agrees(t, b.states, c)
    ensures Agrees(t, a.states, c)
  {
    forall id | id in c
      ensures SlashFreeId(id) && KeyOfId(id) in a.states && Shows(t, a.states[KeyOfId(id)], id, c[id])
    {
      var k := KeyOfId(id);
      assert a.states[k].(at := ZERO_TIME) == b.states[k].(at := ZERO_TIME);
    }
    forall k | k in a.states ensures exists id :: id in c && KeyOfId(id) == k {
      assert k in b.states;
    }
  }

  /** NO GAP REPORTED MEANS REAL, read from SQLite: if the reconstruction from the rows up to a time
      reports a baseline and no gap, its objects are the server's collection at one revision. */
  lemma StoredCutsAreReal(w: World, rows: seq<Row>, t: Watch.Target, trace: seq<Sys>, acts: seq<Action>, i: nat,
                          at: Time)
    requires IsRun(t, trace, acts) && i <= |acts|
    requires Faithful(w) && GoodLog(w, trace[i].log) && RowsMatch(w, rows, trace[i].log)
    requires at == ZERO_TIME || w.good(at)
    requires Reported(FromSql(w, rows, t.streamId, at))
    ensures IsReal(t, FromSql(w, rows, t.streamId, at), trace[i].history)
  {
    SameReconstruction(w, rows, trace[i].log, t.streamId, at);
    CompleteCutsAreReal(t, trace, acts, i, EndOfMilli(at));
    var r: nat :| r < |trace[i].history| &&
      Agrees(t, StateAtCut(t, trace[i], EndOfMilli(at)).states, CollAt(t, trace[i].history, r));
    SameAgreement(t, FromSql(w, rows, t.streamId, at), StateAtCut(t, trace[i], EndOfMilli(at)),
                  CollAt(t, trace[i].history, r));
  }

  /** The program's timestamps. */
  function Millis(): World { World(MillisCodec(), Datable()) }

  /** The database after a history of batches. */
  function RowsOf(bs: seq<Batch>): seq<Row> { SqlRun(Tables([], map[]), bs, Millis().codec.format).rows }

  /** NO GAP REPORTED MEANS REAL, from the collector's loops to the database: whenever the records
      that the loops journalled reached SQLite in any batches, with no event from two clusters. */
  lemma {:induction false} StoredRecordingIsReal(t: Watch.Target, h: History, before: seq<Process>, p: Process,
                                                 bs: seq<Batch>, at: Time)
    requires Recorded(t, h, before, p) && Left(t, before, p).log == MemoryRun([], bs)
    requires forall k :: 0 <= k < |bs| ==> AllStamped(bs[k].ds)
    requires OneRowPerKey(Records(Committed(bs))) && GoodLog(Millis(), MemoryRun([], bs))
    requires at == ZERO_TIME || Datable()(at)
    requires Reported(FromSql(Millis(), RowsOf(bs), t.streamId, at))
    ensures IsReal(t, FromSql(Millis(), RowsOf(bs), t.streamId, at), Reached(t, h, before, p).history)
  {
    var trace, acts := LoopsFollowProtocol(t, h, before, p);
    MillisAreFaithful();
    MillisDate(Datable());
    RunRefines(Millis(), bs);
    StoredCutsAreReal(Millis(), RowsOf(bs), t, trace, acts, |acts|, at);
  }
}
