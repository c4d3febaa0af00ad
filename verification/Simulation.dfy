/** The collector follows the protocol. */
module Simulation {
  import opened Text
  import opened Events
  import opened Journal
  import MemoryStore
  import opened Reducer
  import opened Watch
  import opened Server
  import opened Coverage
  import opened Protocol
  import opened Safety
  import opened Order

  // For every way the server and the store may answer the collector's loops (module Watch), what they
  // journal is what a run of the protocol (module Protocol) journals. So the theorems about runs are
  // theorems about the loops.

  // ---------------------------------------------------------------- paths

  ghost predicate Path(t: Target, s: Sys, acts: seq<Action>)
    decreases |acts|
  {
    acts == [] || (Enabled(t, s, acts[0]) && Path(t, Step(t, s, acts[0]), acts[1..]))
  }

  ghost function End(t: Target, s: Sys, acts: seq<Action>): Sys
    requires Path(t, s, acts)
    decreases |acts|
  {
    if acts == [] then s else End(t, Step(t, s, acts[0]), acts[1..])
  }

  ghost predicate Reaches(t: Target, s: Sys, s': Sys) {
    exists acts :: Path(t, s, acts) && End(t, s, acts) == s'
  }

  lemma {:induction false} PathConcat(t: Target, s: Sys, xs: seq<Action>, ys: seq<Action>)
    requires Path(t, s, xs) && Path(t, End(t, s, xs), ys)
    ensures Path(t, s, xs + ys) && End(t, s, xs + ys) == End(t, End(t, s, xs), ys)
    decreases |xs|
  {
    if xs == [] {
      assert xs + ys == ys;
    } else {
      assert (xs + ys)[0] == xs[0] && (xs + ys)[1..] == xs[1..] + ys;
      PathConcat(t, Step(t, s, xs[0]), xs[1..], ys);
    }
  }

  lemma ReachesItself(t: Target, s: Sys)
    ensures Reaches(t, s, s)
  {
    assert Path(t, s, []) && End(t, s, []) == s;
  }

  lemma ReachesStep(t: Target, s: Sys, a: Action)
    requires Enabled(t, s, a)
    ensures Reaches(t, s, Step(t, s, a))
  {
    var s' := Step(t, s, a);
    assert [a][1..] == [] && Path(t, s', []) && End(t, s', []) == s';
    assert Path(t, s, [a]) && End(t, s, [a]) == s';
  }

  lemma ReachesOn(t: Target, s: Sys, s1: Sys, s2: Sys)
    requires Reaches(t, s, s1) && Reaches(t, s1, s2)
    ensures Reaches(t, s, s2)
  {
    var xs :| Path(t, s, xs) && End(t, s, xs) == s1;
    var ys :| Path(t, s1, ys) && End(t, s1, ys) == s2;
    PathConcat(t, s, xs, ys);
  }

  /** What is reached from a state of a run is a state of a run. */
  lemma {:induction false} RunGoesOn(t: Target, trace: seq<Sys>, acts: seq<Action>, more: seq<Action>)
    returns (trace': seq<Sys>)
    requires IsRun(t, trace, acts) && Path(t, trace[|acts|], more)
    ensures IsRun(t, trace', acts + more) && trace'[|acts + more|] == End(t, trace[|acts|], more)
    decreases |more|
  {
    if more == [] {
      trace' := trace;
      assert acts + more == acts;
    } else {
      var a, s := more[0], trace[|acts|];
      var longer := trace + [Step(t, s, a)];
      RunSnoc(t, trace, acts, a);
      trace' := RunGoesOn(t, longer, acts + [a], more[1..]);
      assert acts + [a] + more[1..] == acts + more;
    }
  }

  // ---------------------------------------------------------------- what happens between two answers

  predicate ServerSide(acts: seq<Action>) {
    forall i :: 0 <= i < |acts| ==> acts[i].ServerWrites? || acts[i].ServerCompacts?
  }

  /** Records of other streams. */
  predicate Foreign(t: Target, ds: seq<Delivery>) {
    forall i :: 0 <= i < |ds| ==> ds[i].rec.streamId != t.streamId && Lacks(ds[i].rec.streamId, NUL)
  }

  /** The server's side differs only. */
  predicate SameCollector(s: Sys, s': Sys) {
    s' == s.(history := s'.history, compacted := s'.compacted)
  }

  lemma {:induction false} ServerKeepsCollector(t: Target, s: Sys, acts: seq<Action>)
    requires ServerSide(acts) && Path(t, s, acts)
    ensures SameCollector(s, End(t, s, acts))
    decreases |acts|
  {
    if acts != [] { ServerKeepsCollector(t, Step(t, s, acts[0]), acts[1..]); }
  }

  lemma {:induction false} OthersReach(t: Target, s: Sys, ds: seq<Delivery>)
    requires Foreign(t, ds)
    ensures Reaches(t, s, s.(log := Play(s.log, ds)))
    decreases |ds|
  {
    if ds == [] {
      ReachesItself(t, s);
    } else {
      var init, d := ds[..|ds| - 1], ds[|ds| - 1];
      var s1 := s.(log := Play(s.log, init));
      OthersReach(t, s, init);
      ReachesStep(t, s1, OtherStream(d.rec, d.now));
      ReachesOn(t, s, s1, Step(t, s1, OtherStream(d.rec, d.now)));
    }
  }

  /** The server acts and other streams' collectors append. */
  ghost predicate CanPass(t: Target, s: Sys, server: seq<Action>, others: seq<Delivery>) {
    ServerSide(server) && Path(t, s, server) && Foreign(t, others)
  }

  ghost function Passed(t: Target, s: Sys, server: seq<Action>, others: seq<Delivery>): Sys
    requires CanPass(t, s, server, others)
  {
    var s1 := End(t, s, server);
    s1.(log := Play(s1.log, others))
  }

  lemma {:induction false} PassedIsReached(t: Target, s: Sys, server: seq<Action>, others: seq<Delivery>)
    requires CanPass(t, s, server, others)
    ensures var s' := Passed(t, s, server, others);
            && Reaches(t, s, s') && s'.log == Play(s.log, others)
            && s' == s.(history := s'.history, compacted := s'.compacted, log := s'.log)
  {
    ServerKeepsCollector(t, s, server);
    OthersReach(t, End(t, s, server), others);
    assert Reaches(t, s, End(t, s, server));
    ReachesOn(t, s, End(t, s, server), Passed(t, s, server, others));
  }

  // ---------------------------------------------------------------- the watch loop

  /** What explains an answer of the watch: the server's steps before it, and its own step, if it
      is one (a bookmark without a resource version is none). */
  datatype Cue = Cue(server: seq<Action>, act: Option<Action>)

  /** The answer meets the protocol's guard in state `s`: it is the given step. */
  ghost predicate Explains(t: Target, s: Sys, a: Arrival, act: Option<Action>) {
    match a.ev
    case ObjectEvent(w, it) =>
      && act.Some? && act.value.Delivers? && Enabled(t, s, act.value)
      && act.value.now == a.now && act.value.reply == a.reply
      && w == s.history[act.value.e].change.value.w && it == ItemOf(s.history[act.value.e])
    case BookmarkEvent(rv) =>
      if rv == "" then act.None?
      else
        && act.Some? && act.value.Bookmarks? && Enabled(t, s, act.value)
        && act.value.now == a.now && act.value.reply == a.reply && rv == s.history[act.value.b].text
    case ErrorEvent(gone) =>
      if gone then act == Some(SendsGone(a.now, a.reply)) && Enabled(t, s, act.value) else act == Some(WatchBreaks)
    case UnreadableEvent => act == Some(WatchBreaks)
  }

  ghost function Acted(t: Target, s: Sys, act: Option<Action>): Sys
    requires act.Some? ==> Enabled(t, s, act.value)
  {
    if act.Some? then Step(t, s, act.value) else s
  }

  /** The state shows what the loop left. */
  predicate Lands(s: Sys, x: After) {
    && s.log == x.log && s.session.None?
    && (if x.outcome == StoreFailure then !s.alive && s.lastRV == "" else s.alive && s.lastRV == x.lastRV)
  }

  /** One event of the loop is one step of the protocol. */
  lemma EventIsStep(t: Target, s: Sys, a: Arrival, act: Option<Action>)
    requires s.alive && s.session.Some? && Explains(t, s, a, act)
    ensures act.Some? ==> Enabled(t, s, act.value)
    ensures var s', x := Acted(t, s, act), HandleEvent(t, s.log, s.lastRV, a.ev, a.now, a.reply);
            && s'.runStart == s.runStart
            && (x.outcome == Continue ==> s'.session.Some? && s'.alive && s'.log == x.log && s'.lastRV == x.lastRV)
            && (x.outcome != Continue ==> Lands(s', x))
  {
  }

  /** Every answer of the watch, until the loop ends, meets the protocol's guard. */
  ghost predicate WatchGuards(t: Target, s: Sys, arrivals: seq<Arrival>, cues: seq<Cue>)
    decreases |arrivals|
  {
    arrivals == [] ||
    (cues != [] && CanPass(t, s, cues[0].server, arrivals[0].others) &&
     var s1 := Passed(t, s, cues[0].server, arrivals[0].others);
     && (cues[0].act.Some? ==> Enabled(t, s1, cues[0].act.value)) && Explains(t, s1, arrivals[0], cues[0].act)
     && var s2 := Acted(t, s1, cues[0].act);
        (s2.session.Some? ==> WatchGuards(t, s2, arrivals[1..], cues[1..])))
  }

  /** The state after the watch. */
  ghost function WatchEnd(t: Target, s: Sys, arrivals: seq<Arrival>, cues: seq<Cue>): Sys
    requires s.session.Some? && WatchGuards(t, s, arrivals, cues)
    decreases |arrivals|
  {
    if arrivals == [] then Step(t, s, WatchBreaks)
    else
      var s2 := Acted(t, Passed(t, s, cues[0].server, arrivals[0].others), cues[0].act);
      if s2.session.Some? then WatchEnd(t, s2, arrivals[1..], cues[1..]) else s2
  }

  lemma {:induction false} WatchFollows(t: Target, s: Sys, arrivals: seq<Arrival>, cues: seq<Cue>)
    requires s.alive && s.session.Some? && WatchGuards(t, s, arrivals, cues)
    ensures Reaches(t, s, WatchEnd(t, s, arrivals, cues))
    ensures Lands(WatchEnd(t, s, arrivals, cues), Drain(t, s.log, s.lastRV, arrivals))
    ensures WatchEnd(t, s, arrivals, cues).runStart == s.runStart
    decreases |arrivals|
  {
    if arrivals == [] {
      ReachesStep(t, s, WatchBreaks);
    } else {
      var a, c := arrivals[0], cues[0];
      var s1 := Passed(t, s, c.server, a.others);
      var s2 := Acted(t, s1, c.act);
      PassedIsReached(t, s, c.server, a.others);
      EventIsStep(t, s1, a, c.act);
      if c.act.Some? { ReachesStep(t, s1, c.act.value); } else { ReachesItself(t, s1); }
      ReachesOn(t, s, s1, s2);
      if s2.session.Some? {
        WatchFollows(t, s2, arrivals[1..], cues[1..]);
        ReachesOn(t, s, s2, WatchEnd(t, s, arrivals, cues));
      }
    }
  }

  // ---------------------------------------------------------------- the outer loop

  datatype RoundCue = RoundCue(server: seq<Action>, list: Option<Action>, watch: seq<Cue>)

  ghost predicate ExplainsList(t: Target, s: Sys, l: ListReply, list: Option<Action>) {
    && l.Listed? && list.Some? && list.value.ListReplies? && Enabled(t, s, list.value)
    && l.rv == (if list.value.named then s.history[list.value.r].text else "")
    && l.items == list.value.items && l.now == list.value.now && l.reply == list.value.reply
  }

  /** The state after the list, if one is due. */
  ghost predicate ListGuards(t: Target, s: Sys, r: Round, c: RoundCue) {
    CanPass(t, s, c.server, r.others) &&
    (s.lastRV == "" && r.list.Listed? ==> ExplainsList(t, Passed(t, s, c.server, r.others), r.list, c.list))
  }

  ghost function ListEnd(t: Target, s: Sys, r: Round, c: RoundCue): Sys
    requires ListGuards(t, s, r, c)
  {
    var s1 := Passed(t, s, c.server, r.others);
    if s.lastRV == "" && r.list.Listed? then Step(t, s1, c.list.value) else s1
  }

  predicate Watches(s: Sys, r: Round) { s.alive && s.lastRV != "" && r.watchStarts }

  /** Every answer of the turn meets the protocol's guard. */
  ghost predicate RoundGuards(t: Target, s: Sys, r: Round, c: RoundCue) {
    ListGuards(t, s, r, c) &&
    var s1 := ListEnd(t, s, r, c);
    (Watches(s1, r) && s1.session.None? ==> WatchGuards(t, Step(t, s1, WatchOpens), r.arrivals, c.watch))
  }

  ghost function RoundEnd(t: Target, s: Sys, r: Round, c: RoundCue): Sys
    requires s.session.None? && RoundGuards(t, s, r, c)
  {
    var s1 := ListEnd(t, s, r, c);
    if Watches(s1, r) && s1.session.None? then WatchEnd(t, Step(t, s1, WatchOpens), r.arrivals, c.watch) else s1
  }

  /** The first half of `RunRound`. */
  function Listing(t: Target, log: seq<Record>, lastRV: string, r: Round): After {
    if lastRV == "" && r.list.Listed? then HandleList(t, log, r.list.rv, r.list.items, r.list.now, r.list.reply)
    else After(log, lastRV, Continue)
  }

  lemma ListIsStep(t: Target, s: Sys, r: Round, c: RoundCue)
    requires s.alive && s.session.None? && ListGuards(t, s, r, c)
    ensures Reaches(t, s, ListEnd(t, s, r, c))
    ensures Lands(ListEnd(t, s, r, c), Listing(t, Play(s.log, r.others), s.lastRV, r))
    ensures ListEnd(t, s, r, c).runStart == s.runStart
  {
    var s1 := Passed(t, s, c.server, r.others);
    PassedIsReached(t, s, c.server, r.others);
    if s.lastRV == "" && r.list.Listed? {
      ReachesStep(t, s1, c.list.value);
      ReachesOn(t, s, s1, Step(t, s1, c.list.value));
      ListShape(t, s1, c.list.value, r.list.rv);
    }
  }

  lemma {:induction false} RoundIsListThenDrain(t: Target, log: seq<Record>, lastRV: string, r: Round)
    ensures var a := Listing(t, Play(log, r.others), lastRV, r);
            RunRound(t, log, lastRV, r) ==
            if a.outcome != StoreFailure && a.lastRV != "" && r.watchStarts
            then Drain(t, a.log, a.lastRV, r.arrivals) else a
  {
  }

  /** One turn of the outer loop. */
  lemma RoundFollows(t: Target, s: Sys, r: Round, c: RoundCue)
    requires s.alive && s.session.None? && RoundGuards(t, s, r, c)
    ensures Reaches(t, s, RoundEnd(t, s, r, c))
    ensures Lands(RoundEnd(t, s, r, c), RunRound(t, s.log, s.lastRV, r))
    ensures RoundEnd(t, s, r, c).runStart == s.runStart
  {
    var s1 := ListEnd(t, s, r, c);
    ListIsStep(t, s, r, c);
    RoundIsListThenDrain(t, s.log, s.lastRV, r);
    if Watches(s1, r) {
      var s2 := Step(t, s1, WatchOpens);
      ReachesStep(t, s1, WatchOpens);
      ReachesOn(t, s, s1, s2);
      WatchFollows(t, s2, r.arrivals, c.watch);
      ReachesOn(t, s, s2, RoundEnd(t, s, r, c));
    }
  }

  /** Every answer of every turn, until the loop ends. */
  ghost predicate RunGuards(t: Target, s: Sys, rounds: seq<Round>, cues: seq<RoundCue>)
    decreases |rounds|
  {
    rounds == [] ||
    (cues != [] && s.session.None? && RoundGuards(t, s, rounds[0], cues[0]) &&
     var s' := RoundEnd(t, s, rounds[0], cues[0]);
     (s'.alive ==> RunGuards(t, s', rounds[1..], cues[1..])))
  }

  ghost function RunEnd(t: Target, s: Sys, rounds: seq<Round>, cues: seq<RoundCue>): Sys
    requires RunGuards(t, s, rounds, cues)
    decreases |rounds|
  {
    if rounds == [] then s
    else
      var s' := RoundEnd(t, s, rounds[0], cues[0]);
      if s'.alive then RunEnd(t, s', rounds[1..], cues[1..]) else s'
  }

  /** The outer loop, from a state in which a process runs and no watch is open. */
  lemma {:induction false} LoopFollows(t: Target, s: Sys, rounds: seq<Round>, cues: seq<RoundCue>)
    requires s.alive && s.session.None? && RunGuards(t, s, rounds, cues)
    ensures Reaches(t, s, RunEnd(t, s, rounds, cues))
    ensures Lands(RunEnd(t, s, rounds, cues), Run(t, s.log, s.lastRV, rounds))
    ensures RunEnd(t, s, rounds, cues).runStart == s.runStart
    decreases |rounds|
  {
    if rounds == [] {
      ReachesItself(t, s);
    } else {
      var s' := RoundEnd(t, s, rounds[0], cues[0]);
      RoundFollows(t, s, rounds[0], cues[0]);
      if s'.alive {
        LoopFollows(t, s', rounds[1..], cues[1..]);
        ReachesOn(t, s, s', RunEnd(t, s, rounds, cues));
      }
    }
  }

  // ---------------------------------------------------------------- one process after the other

  /** A process: the answers its loop gets, and what explains them. */
  datatype Process = Process(rounds: seq<Round>, cues: seq<RoundCue>)

  /** The process ends, if the store has not ended it. */
  function Stopped(t: Target, s: Sys): Sys { if s.alive then Step(t, s, ProcessStops) else s }

  ghost predicate Guards(t: Target, s: Sys, p: Process) {
    !s.alive && RunGuards(t, Step(t, s, ProcessStarts), p.rounds, p.cues)
  }

  ghost function ProcessEnd(t: Target, s: Sys, p: Process): Sys
    requires Guards(t, s, p)
  {
    RunEnd(t, Step(t, s, ProcessStarts), p.rounds, p.cues)
  }

  lemma {:induction false} ProcessFollows(t: Target, s: Sys, p: Process)
    requires Guards(t, s, p)
    ensures Reaches(t, s, ProcessEnd(t, s, p))
    ensures Lands(ProcessEnd(t, s, p), Run(t, s.log, "", p.rounds))
    ensures ProcessEnd(t, s, p).runStart == |Recs(t, s)|
  {
    var s1 := Step(t, s, ProcessStarts);
    ReachesStep(t, s, ProcessStarts);
    LoopFollows(t, s1, p.rounds, p.cues);
    ReachesOn(t, s, s1, ProcessEnd(t, s, p));
  }

  /** Processes one after the other on one store. */
  ghost predicate LifeGuards(t: Target, s: Sys, ps: seq<Process>)
    decreases |ps|
  {
    ps == [] || (Guards(t, s, ps[0]) && LifeGuards(t, Stopped(t, ProcessEnd(t, s, ps[0])), ps[1..]))
  }

  ghost function LifeEnd(t: Target, s: Sys, ps: seq<Process>): Sys
    requires LifeGuards(t, s, ps)
    decreases |ps|
  {
    if ps == [] then s else LifeEnd(t, Stopped(t, ProcessEnd(t, s, ps[0])), ps[1..])
  }

  /** The journal the processes' loops leave. */
  function LifeLog(t: Target, log: seq<Record>, ps: seq<Process>): seq<Record>
    decreases |ps|
  {
    if ps == [] then log else LifeLog(t, Run(t, log, "", ps[0].rounds).log, ps[1..])
  }

  lemma StoppedIsReached(t: Target, s: Sys)
    ensures Reaches(t, s, Stopped(t, s)) && !Stopped(t, s).alive && Stopped(t, s).log == s.log
  {
    if s.alive { ReachesStep(t, s, ProcessStops); } else { ReachesItself(t, s); }
  }

  lemma {:induction false} LifeFollows(t: Target, s: Sys, ps: seq<Process>)
    requires !s.alive && LifeGuards(t, s, ps)
    ensures Reaches(t, s, LifeEnd(t, s, ps)) && !LifeEnd(t, s, ps).alive
    ensures LifeEnd(t, s, ps).log == LifeLog(t, s.log, ps)
    decreases |ps|
  {
    if ps == [] {
      ReachesItself(t, s);
    } else {
      var s1 := ProcessEnd(t, s, ps[0]);
      var s2 := Stopped(t, s1);
      ProcessFollows(t, s, ps[0]);
      StoppedIsReached(t, s1);
      ReachesOn(t, s, s1, s2);
      LifeFollows(t, s2, ps[1..]);
      ReachesOn(t, s, s2, LifeEnd(t, s, ps));
    }
  }

  // ---------------------------------------------------------------- the loops are runs of the protocol

  /** Earlier processes, then the one at work, from an empty store; all answers meet the guards. */
  ghost predicate Recorded(t: Target, h: History, before: seq<Process>, p: Process) {
    && GoodHistory(t, h) && Lacks(t.streamId, NUL)
    && LifeGuards(t, Init(h), before) && Guards(t, LifeEnd(t, Init(h), before), p)
  }

  /** The state the process at work has reached. */
  ghost function Reached(t: Target, h: History, before: seq<Process>, p: Process): Sys
    requires Recorded(t, h, before, p)
  {
    ProcessEnd(t, LifeEnd(t, Init(h), before), p)
  }

  /** What the loop of the process at work leaves. */
  function Left(t: Target, before: seq<Process>, p: Process): After { Run(t, LifeLog(t, [], before), "", p.rounds) }

  /** EVERY RUN OF THE LOOPS IS A RUN OF THE PROTOCOL: whatever the answers, as long as each meets
      the protocol's guard at its turn, there is a run of the transition system whose last state
      holds the loop's journal and, unless the store has failed, its resource version. */
  lemma LoopsFollowProtocol(t: Target, h: History, before: seq<Process>, p: Process)
    returns (trace: seq<Sys>, acts: seq<Action>)
    requires Recorded(t, h, before, p)
    ensures IsRun(t, trace, acts) && trace[|acts|] == Reached(t, h, before, p)
    ensures Lands(trace[|acts|], Left(t, before, p))
    ensures trace[|acts|].runStart == |ForStream(LifeLog(t, [], before), t.streamId)|
  {
    var s, s1 := Init(h), LifeEnd(t, Init(h), before);
    LifeFollows(t, s, before);
    ProcessFollows(t, s1, p);
    ReachesOn(t, s, s1, Reached(t, h, before, p));
    acts :| Path(t, s, acts) && End(t, s, acts) == Reached(t, h, before, p);
    assert IsRun(t, [s], []);
    trace := RunGoesOn(t, [s], [], acts);
    assert [] + acts == acts;
  }

  // ---------------------------------------------------------------- what the loops journal

  /** The stream's records after the loop. */
  function LeftRecords(t: Target, before: seq<Process>, p: Process): seq<Record> {
    ForStream(Left(t, before, p).log, t.streamId)
  }

  /** NO GAP REPORTED MEANS REAL, of the collector's loops: at every time cut of what they have
      journalled. */
  lemma {:induction false} RecordingIsReal(t: Target, h: History, before: seq<Process>, p: Process, at: Time)
    requires Recorded(t, h, before, p)
    requires Reported(Reduce(t.streamId, MemoryStore.Cut(LeftRecords(t, before, p), at)))
    ensures IsReal(t, Reduce(t.streamId, MemoryStore.Cut(LeftRecords(t, before, p), at)),
                   Reached(t, h, before, p).history)
  {
    var trace, acts := LoopsFollowProtocol(t, h, before, p);
    CompleteCutsAreReal(t, trace, acts, |acts|, at);
  }

  /** A process that lists revision `r` and then cannot watch. */
  function OneListing(h: History, r: nat, items: seq<Item>, now: Time): Process
    requires r < |h|
  {
    Process([Round([], Listed(h[r].text, items, now, Stored), false, [])],
            [RoundCue([], Some(ListReplies(r, true, items, now, Stored)), [])])
  }

  lemma {:induction false} OneRoundMeetsGuards(t: Target, s: Sys, r: Round, c: RoundCue)
    requires s.session.None? && ListGuards(t, s, r, c) && !r.watchStarts
    ensures RunGuards(t, s, [r], [c])
  {
    assert [r][1..] == [];
  }

  lemma OneListingMeetsGuards(t: Target, h: History, r: nat, items: seq<Item>, now: Time)
    requires GoodHistory(t, h) && r < |h| && Lists(t, items, CollAt(t, h, r)) && EPOCH < now
    ensures Guards(t, Init(h), OneListing(h, r, items, now))
  {
    var s, p := Step(t, Init(h), ProcessStarts), OneListing(h, r, items, now);
    assert Passed(t, s, [], []) == s;
    FirstListIsEnabled(t, h, r, items, now);
    OneRoundMeetsGuards(t, s, p.rounds[0], p.cues[0]);
  }

  lemma OneListingLeaves(t: Target, h: History, r: nat, items: seq<Item>, now: Time)
    requires r < |h|
    ensures var x := Left(t, [], OneListing(h, r, items, now)); x.lastRV == h[r].text && x.outcome == Continue
  {
    var rounds := OneListing(h, r, items, now).rounds;
    assert rounds[1..] == [];
    assert Play([], []) == [] && LifeLog(t, [], []) == [];
    var a := RunRound(t, [], "", rounds[0]);
    assert a.lastRV == h[r].text && a.outcome == Continue;
    assert Run(t, a.log, a.lastRV, []) == After(a.log, a.lastRV, Continue);
    assert Run(t, [], "", rounds) == Run(t, a.log, a.lastRV, rounds[1..]);
  }

  /** Such answers exist, whatever the revision, and what they leave reports no gap. */
  lemma ListingIsRecorded(t: Target, h: History, r: nat, items: seq<Item>, now: Time)
    requires GoodHistory(t, h) && Lacks(t.streamId, NUL)
    requires r < |h| && Lists(t, items, CollAt(t, h, r)) && EPOCH < now
    ensures Recorded(t, h, [], OneListing(h, r, items, now))
    ensures Reported(Reduce(t.streamId, MemoryStore.Cut(LeftRecords(t, [], OneListing(h, r, items, now)), ZERO_TIME)))
  {
    var p := OneListing(h, r, items, now);
    OneListingMeetsGuards(t, h, r, items, now);
    var trace, acts := LoopsFollowProtocol(t, h, [], p);
    assert GoodRevision(t, h[r]);
    OneListingLeaves(t, h, r, items, now);
    var _ := JournalKeepsUp(t, trace, acts, |acts|);
  }

  /** TIME RUNS FORWARD, of the loops: as long as no list the journal took is older than one before
      it, over all processes, one nowhere falling assignment of revisions serves all cuts. */
  lemma RecordingRunsForward(t: Target, h: History, before: seq<Process>, p: Process) returns (shown: Time -> int)
    requires Recorded(t, h, before, p) && Rising(Reached(t, h, before, p).lists)
    ensures ShowsInOrder(t, LeftRecords(t, before, p), Reached(t, h, before, p).history, shown)
  {
    var trace, acts := LoopsFollowProtocol(t, h, before, p);
    shown := LaterCutsShowLaterRevisions(t, trace, acts, |acts|);
  }

  /** NO SILENT LOSS, of the loops: while the loop holds a resource version, every change after the
      last BASELINE's revision up to it is journalled after that BASELINE. */
  lemma RecordingLosesNothing(t: Target, h: History, before: seq<Process>, p: Process) returns (b: nat, base: nat)
    requires Recorded(t, h, before, p)
    requires Left(t, before, p).outcome != StoreFailure && Left(t, before, p).lastRV != ""
    ensures var recs, rv := LeftRecords(t, before, p), Left(t, before, p).lastRV;
            var hist := Reached(t, h, before, p).history;
            && b < |recs| && b == LastBaseline(recs) && base < |hist|
            && recs[b].resource.resourceVersion == hist[base].text
            && Names(hist, rv) && base <= RevisionOf(hist, rv)
            && forall e: nat :: base < e <= RevisionOf(hist, rv) && e < |hist| && hist[e].change.Some? ==>
                 StandsAfter(t, hist, recs, b, e)
  {
    var trace, acts := LoopsFollowProtocol(t, h, before, p);
    b, base := NoSilentLoss(t, trace, acts, |acts|);
  }

  /** EVERY RELIST IS EXPLAINED, of the loops: between two BASELINEs of one process, the first
      naming its revision, stands a GAP. */
  lemma {:induction false} RecordingMarksRelists(t: Target, h: History, before: seq<Process>, p: Process, b1: nat,
                                                 b2: nat)
    requires Recorded(t, h, before, p)
    requires var recs := LeftRecords(t, before, p);
             && |ForStream(LifeLog(t, [], before), t.streamId)| <= b1 < b2 < |recs|
             && NamedBaseline(recs, b1) && recs[b2].rtype == Baseline
    ensures GapBetween(LeftRecords(t, before, p), b1, b2)
  {
    var trace, acts := LoopsFollowProtocol(t, h, before, p);
    RelistsAreMarked(t, trace, acts, |acts|, b1, b2);
  }

  /** The collector's, the store's and the reducer's code together: record, read back up to `at`,
      reduce. A reduction that reports a baseline and no gap is the server's collection at one
      revision the server really passed through. */
  method RecordAndReconstruct(c: Collector, rounds: seq<Round>, at: Time, ghost h: History, ghost before: seq<Process>,
                              ghost cues: seq<RoundCue>) returns (red: Reduction)
    requires c.store.Valid() && Timed(rounds) && Recorded(c.target, h, before, Process(rounds, cues))
    requires c.store.log == LifeLog(c.target, [], before)
    modifies c, c.store
    ensures red == Reduce(c.target.streamId, MemoryStore.Cut(LeftRecords(c.target, before, Process(rounds, cues)), at))
    ensures Reported(red) ==> IsReal(c.target, red, Reached(c.target, h, before, Process(rounds, cues)).history)
  {
    var _ := c.RunStream(rounds);
    var recs := c.store.StreamEvents(c.target.streamId, at);
    red := ReduceLoop(c.target.streamId, recs);
    if Reported(red) { RecordingIsReal(c.target, h, before, Process(rounds, cues), at); }
  }
}
