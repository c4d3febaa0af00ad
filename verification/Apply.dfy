/** Dry-running and applying a plan (internal/replay/apply.go). */
module Apply {
  import opened Text
  import opened Sanitize
  import opened Plan

  // ---------------------------------------------------------------- which objects can be sent

  datatype Gvr = Gvr(group: string, version: string, resource: string)

  /** `gvrFor`, over the table from kinds to resource names. */
  function GvrFor(body: Fields, kind: string, resources: map<string, string>): Option<Gvr> {
    var apiVersion := StringAt(body, "apiVersion");
    if apiVersion == "" then None
    else match ParseGroupVersion(apiVersion)
      case None => None
      case Some(gv) => if kind in resources then Some(Gvr(gv.0, gv.1, resources[kind])) else None
  }

  /** "version" or "group/version"; a lone "/" names neither, and more slashes are refused. */
  function ParseGroupVersion(s: string): Option<(string, string)> {
    if s == "/" then Some(("", ""))
    else match |Split(s, '/')|
      case 1 => Some(("", s))
      case 2 => Some((Split(s, '/')[0], Split(s, '/')[1]))
      case _ => None
  }

  datatype DryRunItem = DryRunItem(namespace: string, name: string, kind: string)

  function Named(po: PlanObject): DryRunItem { DryRunItem(po.namespace, po.name, po.kind) }

  predicate Sendable(po: PlanObject, resources: map<string, string>) { GvrFor(po.body, po.kind, resources).Some? }

  predicate InRange(at: seq<nat>, objects: seq<PlanObject>) { forall k :: 0 <= k < |at| ==> at[k] < |objects| }

  /** The places of the objects that pass the test. */
  function Where(objects: seq<PlanObject>, test: PlanObject -> bool): (r: seq<nat>)
    ensures InRange(r, objects)
  {
    if objects == [] then []
    else
      var n := |objects| - 1;
      var before := Where(objects[..n], test);
      if test(objects[n]) then before + [n] else before
  }

  function CanSend(resources: map<string, string>, sendable: bool): PlanObject -> bool {
    po => Sendable(po, resources) == sendable
  }

  /** The places of the objects that can be sent, or of those that cannot. */
  function Places(objects: seq<PlanObject>, resources: map<string, string>, sendable: bool): seq<nat> {
    Where(objects, CanSend(resources, sendable))
  }

  /** Exactly the places asked for, in order. */
  ghost predicate ArePlaces(r: seq<nat>, objects: seq<PlanObject>, test: PlanObject -> bool)
    requires InRange(r, objects)
  {
    && (forall k :: 0 <= k < |r| ==> test(objects[r[k]]))
    && (forall k, l :: 0 <= k < l < |r| ==> r[k] < r[l])
    && (forall i :: 0 <= i < |objects| && test(objects[i]) ==> i in r)
  }

  lemma {:induction false} WhereMeaning(objects: seq<PlanObject>, test: PlanObject -> bool)
    ensures ArePlaces(Where(objects, test), objects, test)
  {
    if objects != [] {
      var n := |objects| - 1;
      var before, r := Where(objects[..n], test), Where(objects, test);
      WhereMeaning(objects[..n], test);
      forall i | 0 <= i < |objects| && test(objects[i]) ensures i in r {
        if i < n { assert i in before; } else { assert r[|before|] == n; }
      }
    }
  }

  lemma {:induction false} WhereCount(objects: seq<PlanObject>, p: PlanObject -> bool, q: PlanObject -> bool)
    requires forall po :: p(po) != q(po)
    ensures |Where(objects, p)| + |Where(objects, q)| == |objects|
  {
    if objects != [] { WhereCount(objects[..|objects| - 1], p, q); }
  }

  /** Every object can be sent or is skipped, never both. */
  lemma PlacesCount(objects: seq<PlanObject>, resources: map<string, string>)
    ensures |Places(objects, resources, true)| + |Places(objects, resources, false)| == |objects|
  {
    WhereCount(objects, CanSend(resources, true), CanSend(resources, false));
  }

  // ---------------------------------------------------------------- the server's answers

  /** What the API server answers when the object at a place is sent. */
  datatype Answer = Done | Conflict | NotFound | Failed

  datatype Fate = Applied | InConflict | Tolerated | Errored

  /** A missing namespace is no failure of the dry run: applying creates it first. */
  function DryFate(po: PlanObject, a: Answer): Fate {
    match a
    case Done => Applied
    case Conflict => InConflict
    case NotFound => if po.namespace != "" then Tolerated else Errored
    case Failed => Errored
  }

  /** The objects at the places `at` that met the fate `f`, in order. */
  function Picked(objects: seq<PlanObject>, at: seq<nat>, reply: nat -> Answer, f: Fate): seq<DryRunItem>
    requires InRange(at, objects)
  {
    if at == [] then []
    else
      var i := at[|at| - 1];
      Picked(objects, at[..|at| - 1], reply, f) + if DryFate(objects[i], reply(i)) == f then [Named(objects[i])] else []
  }

  function NamedAt(objects: seq<PlanObject>, at: seq<nat>): seq<DryRunItem>
    requires InRange(at, objects)
  {
    seq(|at|, k requires 0 <= k < |at| => Named(objects[at[k]]))
  }

  /** One warning for each object that cannot be sent. */
  function SkipWarnings(objects: seq<PlanObject>, at: seq<nat>): seq<Warning>
    requires InRange(at, objects)
  {
    seq(|at|, k requires 0 <= k < |at| => Skipping(objects[at[k]].kind, objects[at[k]].name))
  }

  datatype DryRunResult = DryRunResult(
    applied: nat, conflicts: seq<DryRunItem>, errors: seq<DryRunItem>, skipped: seq<DryRunItem>, ok: bool)

  function DryRunOf(objects: seq<PlanObject>, resources: map<string, string>, reply: nat -> Answer): DryRunResult {
    var at, skipped := Places(objects, resources, true), Places(objects, resources, false);
    var conflicts, errors := Picked(objects, at, reply, InConflict), Picked(objects, at, reply, Errored);
    DryRunResult(|Picked(objects, at, reply, Applied)|, conflicts, errors, NamedAt(objects, skipped),
                 conflicts == [] && errors == [] && skipped == [])
  }

  // ---------------------------------------------------------------- applying

  /** What is sent to the cluster, in order. */
  datatype Sent = EnsureNamespace(namespace: string) | Put(i: nat)

  datatype Progress = Progress(ensured: set<string>, applied: nat, errors: seq<DryRunItem>, sent: seq<Sent>)

  const START: Progress := Progress({}, 0, [], [])

  predicate NeedsNamespace(po: PlanObject, resources: map<string, string>) {
    po.namespace != "" && match GvrFor(po.body, po.kind, resources) case Some(g) => g.resource != "namespaces"
      case None => false
  }

  function Send(s: Progress, po: PlanObject, i: nat, a: Answer): Progress {
    var t := s.(sent := s.sent + [Put(i)]);
    if a == Done then t.(applied := t.applied + 1) else t.(errors := t.errors + [Named(po)])
  }

  /** One item of the loop; `spaces` tells whether ensuring a namespace succeeds. */
  function ApplyStep(s: Progress, po: PlanObject, i: nat, resources: map<string, string>, reply: nat -> Answer,
                     spaces: string -> bool): Progress
  {
    if NeedsNamespace(po, resources) && po.namespace !in s.ensured then
      var t := s.(ensured := s.ensured + {po.namespace}, sent := s.sent + [EnsureNamespace(po.namespace)]);
      if !spaces(po.namespace) then t.(errors := t.errors + [Named(po)]) else Send(t, po, i, reply(i))
    else Send(s, po, i, reply(i))
  }

  function ApplyAll(objects: seq<PlanObject>, at: seq<nat>, resources: map<string, string>, reply: nat -> Answer,
                    spaces: string -> bool): Progress
    requires InRange(at, objects)
  {
    if at == [] then START
    else
      var i := at[|at| - 1];
      ApplyStep(ApplyAll(objects, at[..|at| - 1], resources, reply, spaces), objects[i], i, resources, reply, spaces)
  }

  datatype ApplyResult = ApplyResult(applied: nat, errors: seq<DryRunItem>, skipped: seq<DryRunItem>, sent: seq<Sent>)

  function ApplyOf(objects: seq<PlanObject>, resources: map<string, string>, reply: nat -> Answer,
                   spaces: string -> bool): ApplyResult
  {
    var p := ApplyAll(objects, Places(objects, resources, true), resources, reply, spaces);
    ApplyResult(p.applied, p.errors, NamedAt(objects, Places(objects, resources, false)), p.sent)
  }

  // ---------------------------------------------------------------- the plan

  datatype Status = Planned | DryRunOk | DryRunFailed | AppliedPlan

  datatype DryRunOutcome = DryRan(result: DryRunResult) | NoClient

  datatype ApplyOutcome = Ran(result: ApplyResult) | NotConfirmed | NoDryRun | ClientFailed

  /** One locked call, with the environment's part in it: whether a client could be made, and
      the cluster's answers. */
  datatype Call =
    | DryRunCall(client: bool, reply: nat -> Answer)
    | ApplyCall(confirm: bool, client: bool, reply: nat -> Answer, spaces: string -> bool)

  /** The plan's status after a call. */
  function Next(objects: seq<PlanObject>, resources: map<string, string>, status: Status, c: Call): Status {
    match c
    case DryRunCall(client, reply) =>
      if !client then status else if DryRunOf(objects, resources, reply).ok then DryRunOk else DryRunFailed
    case ApplyCall(confirm, client, _, _) =>
      if Runs(status, c) then AppliedPlan else status
  }

  /** An apply goes ahead: it is confirmed, the plan has passed a dry run, and a client is there. */
  predicate Runs(status: Status, c: Call) { c.ApplyCall? && c.confirm && status == DryRunOk && c.client }

  class ReplayRun {
    const objects: seq<PlanObject>
    const resources: map<string, string>
    var status: Status
    var warnings: seq<Warning>
    var targetContext: string

    constructor (objects: seq<PlanObject>, resources: map<string, string>, warnings: seq<Warning>)
      ensures this.objects == objects && this.resources == resources && this.warnings == warnings
      ensures status == Planned
    {
      this.objects, this.resources, this.warnings := objects, resources, warnings;
      status, targetContext := Planned, "";
    }

    /** `applyItems`. */
    method ApplyItems() returns (items: seq<nat>, skipped: seq<nat>)
      modifies this`warnings
      ensures items == Places(objects, resources, true) && skipped == Places(objects, resources, false)
      ensures warnings == old(warnings) + SkipWarnings(objects, skipped)
    {
      items, skipped := [], [];
      for i := 0 to |objects|
        invariant items == Places(objects[..i], resources, true) && skipped == Places(objects[..i], resources, false)
        invariant InRange(skipped, objects) && warnings == old(warnings) + SkipWarnings(objects, skipped)
      {
        assert objects[..i + 1][..i] == objects[..i];
        if GvrFor(objects[i].body, objects[i].kind, resources).None? {
          warnings := warnings + [Skipping(objects[i].kind, objects[i].name)];
          skipped := skipped + [i];
          continue;
        }
        items := items + [i];
      }
      assert objects[..|objects|] == objects;
    }

    /** `DryRun`. */
    method DryRun(client: bool, targetContext: string, reply: nat -> Answer) returns (r: DryRunOutcome)
      modifies this
      ensures r == if client then DryRan(DryRunOf(objects, resources, reply)) else NoClient
      ensures status == Next(objects, resources, old(status), DryRunCall(client, reply))
      ensures warnings == if client then old(warnings) + SkipWarnings(objects, Places(objects, resources, false))
                          else old(warnings)
      ensures this.targetContext == if client then targetContext else old(this.targetContext)
    {
      if !client { return NoClient; }
      this.targetContext := targetContext;
      var items, skipped := ApplyItems();
      var applied, conflicts, errors := DryRunLoop(items, reply);
      var ok := |conflicts| == 0 && |errors| == 0 && |skipped| == 0;
      status := if ok then DryRunOk else DryRunFailed;
      r := DryRan(DryRunResult(applied, conflicts, errors, NamedAt(objects, skipped), ok));
    }

    method DryRunLoop(items: seq<nat>, reply: nat -> Answer)
        returns (applied: nat, conflicts: seq<DryRunItem>, errors: seq<DryRunItem>)
      requires InRange(items, objects)
      ensures applied == |Picked(objects, items, reply, Applied)|
      ensures conflicts == Picked(objects, items, reply, InConflict)
      ensures errors == Picked(objects, items, reply, Errored)
    {
      applied, conflicts, errors := 0, [], [];
      for k := 0 to |items|
        invariant applied == |Picked(objects, items[..k], reply, Applied)|
        invariant conflicts == Picked(objects, items[..k], reply, InConflict)
        invariant errors == Picked(objects, items[..k], reply, Errored)
      {
        assert items[..k + 1][..k] == items[..k];
        var i := items[k];
        var po := objects[i];
        var answer := reply(i);
        if answer != Done {
          if answer == Conflict {
            conflicts := conflicts + [Named(po)];
          } else if answer == NotFound && po.namespace != "" {
          } else {
            errors := errors + [Named(po)];
          }
          continue;
        }
        applied := applied + 1;
      }
      assert items[..|items|] == items;
    }

    /** `Apply`. */
    method Apply(confirm: bool, client: bool, targetContext: string, reply: nat -> Answer, spaces: string -> bool)
        returns (r: ApplyOutcome)
      modifies this
      ensures r == if !confirm then NotConfirmed else if old(status) != DryRunOk then NoDryRun
                   else if !client then ClientFailed else Ran(ApplyOf(objects, resources, reply, spaces))
      ensures status == Next(objects, resources, old(status), ApplyCall(confirm, client, reply, spaces))
      ensures warnings == if r.Ran? then old(warnings) + SkipWarnings(objects, Places(objects, resources, false))
                          else old(warnings)
      ensures this.targetContext == if r.Ran? then targetContext else old(this.targetContext)
    {
      if !confirm { return NotConfirmed; }
      if status != DryRunOk { return NoDryRun; }
      if !client { return ClientFailed; }
      this.targetContext := targetContext;
      var items, skipped := ApplyItems();
      var p := ApplyLoop(items, reply, spaces);
      status := AppliedPlan;
      r := Ran(ApplyResult(p.applied, p.errors, NamedAt(objects, skipped), p.sent));
    }

    method ApplyLoop(items: seq<nat>, reply: nat -> Answer, spaces: string -> bool) returns (p: Progress)
      requires InRange(items, objects)
      ensures p == ApplyAll(objects, items, resources, reply, spaces)
    {
      var ensured: set<string>, applied: nat, errors: seq<DryRunItem>, sent: seq<Sent> := {}, 0, [], [];
      for k := 0 to |items|
        invariant Progress(ensured, applied, errors, sent) == ApplyAll(objects, items[..k], resources, reply, spaces)
      {
        assert items[..k + 1][..k] == items[..k];
        var i := items[k];
        var po := objects[i];
        if NeedsNamespace(po, resources) && po.namespace !in ensured {
          ensured := ensured + {po.namespace};
          sent := sent + [EnsureNamespace(po.namespace)];
          if !spaces(po.namespace) {
            errors := errors + [Named(po)];
            continue;
          }
        }
        sent := sent + [Put(i)];
        if reply(i) != Done {
          errors := errors + [Named(po)];
          continue;
        }
        applied := applied + 1;
      }
      assert items[..|items|] == items;
      p := Progress(ensured, applied, errors, sent);
    }
  }

  // ---------------------------------------------------------------- accounting

  lemma {:induction false} FatesCount(objects: seq<PlanObject>, at: seq<nat>, reply: nat -> Answer)
    requires InRange(at, objects)
    ensures |Picked(objects, at, reply, Applied)| + |Picked(objects, at, reply, InConflict)|
          + |Picked(objects, at, reply, Errored)| + |Picked(objects, at, reply, Tolerated)| == |at|
  {
    if at != [] { FatesCount(objects, at[..|at| - 1], reply); }
  }

  /** Every object of the plan is counted exactly once by a dry run: applied, in conflict, in
      error, skipped, or tolerated as not found. */
  lemma {:induction false} DryRunAccounting(objects: seq<PlanObject>, resources: map<string, string>,
                                            reply: nat -> Answer)
    ensures var r := DryRunOf(objects, resources, reply);
            var tolerated := |Picked(objects, Places(objects, resources, true), reply, Tolerated)|;
            r.applied + |r.conflicts| + |r.errors| + |r.skipped| + tolerated == |objects|
  {
    PlacesCount(objects, resources);
    FatesCount(objects, Places(objects, resources, true), reply);
  }

  lemma {:induction false} NonePicked(objects: seq<PlanObject>, at: seq<nat>, reply: nat -> Answer, f: Fate)
    requires InRange(at, objects)
    ensures Picked(objects, at, reply, f) == [] <==> forall i :: i in at ==> DryFate(objects[i], reply(i)) != f
  {
    if at != [] {
      var init, i := at[..|at| - 1], at[|at| - 1];
      assert at == init + [i];
      NonePicked(objects, init, reply, f);
    }
  }

  lemma NoneSkipped(objects: seq<PlanObject>, resources: map<string, string>)
    ensures Places(objects, resources, false) == [] <==>
              forall i: nat :: i < |objects| ==> Sendable(objects[i], resources)
  {
    var skipped := Places(objects, resources, false);
    WhereMeaning(objects, CanSend(resources, false));
    if skipped != [] { assert !Sendable(objects[skipped[0]], resources); }
    forall i: nat | i < |objects| && skipped == [] ensures Sendable(objects[i], resources) {
      assert i !in skipped;
    }
  }

  /** No failure of a dry run: done, or no such namespace yet. */
  predicate Fine(po: PlanObject, a: Answer) { a == Done || (a == NotFound && po.namespace != "") }

  lemma {:induction false} NoneFailed(objects: seq<PlanObject>, at: seq<nat>, reply: nat -> Answer)
    requires InRange(at, objects)
    ensures Picked(objects, at, reply, InConflict) == [] && Picked(objects, at, reply, Errored) == [] <==>
            forall i :: i in at ==> Fine(objects[i], reply(i))
  {
    NonePicked(objects, at, reply, InConflict);
    NonePicked(objects, at, reply, Errored);
  }

  /** A dry run is OK exactly when every object can be sent, and the server takes it or does not
      know its namespace yet. */
  lemma OkMeaning(objects: seq<PlanObject>, resources: map<string, string>, reply: nat -> Answer)
    ensures DryRunOf(objects, resources, reply).ok <==>
            forall i: nat :: i < |objects| ==> Sendable(objects[i], resources) && Fine(objects[i], reply(i))
  {
    var at := Places(objects, resources, true);
    WhereMeaning(objects, CanSend(resources, true));
    NoneFailed(objects, at, reply);
    NoneSkipped(objects, resources);
    assert forall i :: i in at ==> i < |objects|;
    assert forall i: nat :: i < |objects| && Sendable(objects[i], resources) ==> i in at;
  }

  lemma {:induction false} ApplyCounts(objects: seq<PlanObject>, at: seq<nat>, resources: map<string, string>,
                                       reply: nat -> Answer, spaces: string -> bool)
    requires InRange(at, objects)
    ensures var p := ApplyAll(objects, at, resources, reply, spaces); p.applied + |p.errors| == |at|
  {
    if at != [] { ApplyCounts(objects, at[..|at| - 1], resources, reply, spaces); }
  }

  /** An apply counts every object exactly once as applied, in error or skipped. */
  lemma ApplyAccounting(objects: seq<PlanObject>, resources: map<string, string>, reply: nat -> Answer,
                        spaces: string -> bool)
    ensures var r := ApplyOf(objects, resources, reply, spaces); r.applied + |r.errors| + |r.skipped| == |objects|
  {
    PlacesCount(objects, resources);
    ApplyCounts(objects, Places(objects, resources, true), resources, reply, spaces);
  }

  // ---------------------------------------------------------------- what is sent

  /** The object is to be in the namespace `ns`: it names it, and its resource is not Namespaces. */
  predicate Homed(po: PlanObject, resources: map<string, string>, ns: string) {
    && ns != "" && po.namespace == ns
    && GvrFor(po.body, po.kind, resources).Some? && resources[po.kind] != "namespaces"
  }

  /** Each namespace is ensured at most once, each object sent at most once and in order, and
      before an object that is to be in a namespace, the namespace is ensured. */
  ghost predicate Orderly(sent: seq<Sent>, objects: seq<PlanObject>, resources: map<string, string>) {
    && (forall k :: 0 <= k < |sent| && sent[k].Put? ==> sent[k].i < |objects|)
    && (forall k, l :: 0 <= k < l < |sent| && sent[k].EnsureNamespace? ==> sent[k] != sent[l])
    && (forall k, l :: 0 <= k < l < |sent| && sent[k].Put? && sent[l].Put? ==> sent[k].i < sent[l].i)
    && (forall l, ns :: 0 <= l < |sent| && sent[l].Put? && Homed(objects[sent[l].i], resources, ns) ==>
          EnsuredBefore(sent, l, ns))
  }

  ghost predicate EnsuredBefore(sent: seq<Sent>, l: nat, ns: string) {
    exists k :: 0 <= k < l && k < |sent| && sent[k] == EnsureNamespace(ns)
  }

  /** The loop's memory is what was sent. */
  ghost predicate Remembers(p: Progress, objects: seq<PlanObject>, resources: map<string, string>, next: nat) {
    && Orderly(p.sent, objects, resources)
    && (forall ns :: ns in p.ensured <==> EnsuredBefore(p.sent, |p.sent|, ns))
    && (forall k :: 0 <= k < |p.sent| && p.sent[k].Put? ==> p.sent[k].i < next)
  }

  lemma EnsureKeeps(p: Progress, objects: seq<PlanObject>, resources: map<string, string>, next: nat, ns: string,
                    p': Progress)
    requires Remembers(p, objects, resources, next) && ns !in p.ensured
    requires p'.ensured == p.ensured + {ns} && p'.sent == p.sent + [EnsureNamespace(ns)]
    ensures Remembers(p', objects, resources, next)
  {
    var n := |p.sent|;
    forall x ensures x in p'.ensured <==> EnsuredBefore(p'.sent, n + 1, x) {
      if EnsuredBefore(p.sent, n, x) {
        var k :| 0 <= k < n && p.sent[k] == EnsureNamespace(x);
        assert p'.sent[k] == EnsureNamespace(x);
      }
      if x == ns { assert p'.sent[n] == EnsureNamespace(x); }
    }
    EarlierStands(p.sent, EnsureNamespace(ns));
    assert !EnsuredBefore(p.sent, n, ns);
  }

  lemma EarlierStands(sent: seq<Sent>, x: Sent)
    ensures forall l, ns :: 0 <= l <= |sent| ==> (EnsuredBefore(sent + [x], l, ns) <==> EnsuredBefore(sent, l, ns))
  {
    forall l, ns | 0 <= l <= |sent| ensures EnsuredBefore(sent + [x], l, ns) <==> EnsuredBefore(sent, l, ns) {
      assert forall k :: 0 <= k < |sent| ==> (sent + [x])[k] == sent[k];
    }
  }

  lemma PutKeeps(p: Progress, objects: seq<PlanObject>, resources: map<string, string>, i: nat, p': Progress)
    requires Remembers(p, objects, resources, i) && i < |objects|
    requires forall ns :: Homed(objects[i], resources, ns) ==> ns in p.ensured
    requires p'.ensured == p.ensured && p'.sent == p.sent + [Put(i)]
    ensures Remembers(p', objects, resources, i + 1)
  {
    var n := |p.sent|;
    EarlierStands(p.sent, Put(i));
    forall x ensures EnsuredBefore(p'.sent, n + 1, x) <==> EnsuredBefore(p.sent, n, x) {
      if EnsuredBefore(p'.sent, n + 1, x) {
        var k :| 0 <= k < n + 1 && p'.sent[k] == EnsureNamespace(x);
        assert p.sent[k] == EnsureNamespace(x);
      }
      if EnsuredBefore(p.sent, n, x) {
        var k :| 0 <= k < n && p.sent[k] == EnsureNamespace(x);
        assert p'.sent[k] == EnsureNamespace(x);
      }
    }
  }

  lemma {:induction false} ApplyRemembers(objects: seq<PlanObject>, at: seq<nat>, resources: map<string, string>,
                                          reply: nat -> Answer, spaces: string -> bool)
    requires InRange(at, objects) && forall k, l :: 0 <= k < l < |at| ==> at[k] < at[l]
    ensures Remembers(ApplyAll(objects, at, resources, reply, spaces), objects, resources,
                      if at == [] then 0 else at[|at| - 1] + 1)
  {
    if at != [] {
      var init, i := at[..|at| - 1], at[|at| - 1];
      var p := ApplyAll(objects, init, resources, reply, spaces);
      ApplyRemembers(objects, init, resources, reply, spaces);
      StepRemembers(p, objects, i, resources, reply, spaces);
    }
  }

  lemma StepRemembers(p: Progress, objects: seq<PlanObject>, i: nat, resources: map<string, string>,
                      reply: nat -> Answer, spaces: string -> bool)
    requires i < |objects| && Remembers(p, objects, resources, i)
    ensures Remembers(ApplyStep(p, objects[i], i, resources, reply, spaces), objects, resources, i + 1)
  {
    var po, r := objects[i], ApplyStep(p, objects[i], i, resources, reply, spaces);
    if NeedsNamespace(po, resources) && po.namespace !in p.ensured {
      var t := p.(ensured := p.ensured + {po.namespace}, sent := p.sent + [EnsureNamespace(po.namespace)]);
      EnsureKeeps(p, objects, resources, i, po.namespace, t);
      if spaces(po.namespace) { PutKeeps(t, objects, resources, i, r); }
    } else {
      PutKeeps(p, objects, resources, i, r);
    }
  }

  /** Whatever the cluster answers, what an apply sends is orderly. */
  lemma ApplyIsOrderly(objects: seq<PlanObject>, resources: map<string, string>, reply: nat -> Answer,
                       spaces: string -> bool)
    ensures Orderly(ApplyOf(objects, resources, reply, spaces).sent, objects, resources)
  {
    WhereMeaning(objects, CanSend(resources, true));
    ApplyRemembers(objects, Places(objects, resources, true), resources, reply, spaces);
  }

  // ---------------------------------------------------------------- over all interleavings

  /** The status after a run of locked calls on a new plan. */
  function StatusAfter(objects: seq<PlanObject>, resources: map<string, string>, calls: seq<Call>): Status {
    if calls == [] then Planned
    else Next(objects, resources, StatusAfter(objects, resources, calls[..|calls| - 1]), calls[|calls| - 1])
  }

  predicate PassesDryRun(objects: seq<PlanObject>, resources: map<string, string>, c: Call) {
    c.DryRunCall? && c.client && DryRunOf(objects, resources, c.reply).ok
  }

  function Passing(objects: seq<PlanObject>, resources: map<string, string>): Call -> bool {
    c => PassesDryRun(objects, resources, c)
  }

  /** A call that reached the cluster's client: a dry run, or a confirmed apply. */
  predicate Reaches(c: Call) { c.client && (c.DryRunCall? || c.confirm) }

  /** The last call to reach the cluster was a dry run that passed. */
  ghost predicate Armed(passes: Call -> bool, calls: seq<Call>) {
    exists k :: 0 <= k < |calls| && passes(calls[k]) && forall j :: k < j < |calls| ==> !Reaches(calls[j])
  }

  lemma ArmedSnoc(passes: Call -> bool, calls: seq<Call>, c: Call)
    ensures Armed(passes, calls + [c]) <==> passes(c) || (Armed(passes, calls) && !Reaches(c))
  {
    var all, n := calls + [c], |calls|;
    assert all[n] == c;
    assert forall k :: 0 <= k < n ==> all[k] == calls[k];
    if passes(c) { assert passes(all[n]); }
    if Armed(passes, calls) && !Reaches(c) {
      var k :| 0 <= k < n && passes(calls[k]) && forall j :: k < j < n ==> !Reaches(calls[j]);
      assert passes(all[k]);
    }
  }

  lemma {:induction false} StatusMeaning(objects: seq<PlanObject>, resources: map<string, string>, calls: seq<Call>)
    ensures StatusAfter(objects, resources, calls) == DryRunOk <==> Armed(Passing(objects, resources), calls)
  {
    if calls != [] {
      var init, c := calls[..|calls| - 1], calls[|calls| - 1];
      assert calls == init + [c];
      StatusMeaning(objects, resources, init);
      ArmedSnoc(Passing(objects, resources), init, c);
    }
  }

  /** EVERY APPLY THAT RUNS HAS PASSED A DRY RUN: after any run of calls, an apply goes ahead
      exactly when it is confirmed, gets a client, and the last call that reached the cluster
      was a dry run that passed; and then it skips nothing. */
  lemma {:induction false} ApplyNeedsDryRun(objects: seq<PlanObject>, resources: map<string, string>, calls: seq<Call>,
                                            c: Call)
    requires c.ApplyCall?
    ensures Runs(StatusAfter(objects, resources, calls), c) <==> Reaches(c) && Armed(Passing(objects, resources), calls)
    ensures Runs(StatusAfter(objects, resources, calls), c) ==>
              ApplyOf(objects, resources, c.reply, c.spaces).skipped == []
  {
    StatusMeaning(objects, resources, calls);
    if Armed(Passing(objects, resources), calls) {
      var k :| 0 <= k < |calls| && Passing(objects, resources)(calls[k]) &&
        forall j :: k < j < |calls| ==> !Reaches(calls[j]);
      assert Places(objects, resources, false) == [];
    }
  }
}
