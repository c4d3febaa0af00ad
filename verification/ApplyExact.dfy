/** Exactly what a dry run reports and an apply sends. */
module ApplyExact {
  import opened Text
  import opened Paths
  import opened Patch
  import opened Sanitize
  import opened Plan
  import opened PlanExact
  import opened Apply

  // ---------------------------------------------------------------- group, version and resource

  /** "version", "group/version", or a lone "/" for neither. */
  predicate Denotes(apiVersion: string, group: string, version: string) {
    || (apiVersion == "/" && group == "" && version == "")
    || (apiVersion != "" && Lacks(apiVersion, '/') && group == "" && version == apiVersion)
    || (apiVersion != "/" && Lacks(group, '/') && Lacks(version, '/') && apiVersion == group + ['/'] + version)
  }

  /** What stands before and after a single slash. */
  lemma {:induction false} OneSlash(s: string, group: string, version: string)
    ensures |Split(s, '/')| == 2 && Split(s, '/') == [group, version] <==>
              Lacks(group, '/') && Lacks(version, '/') && s == group + ['/'] + version
  {
    if Lacks(group, '/') && Lacks(version, '/') && s == group + ['/'] + version {
      SplitOfJoin([group, version], '/');
      assert [group, version][1..] == [version];
    }
    if |Split(s, '/')| == 2 {
      var i := Find(s, '/');
      NoSlash(s[i + 1..]);
      assert s == s[..i] + ['/'] + s[i + 1..];
      assert Split(s, '/') == [s[..i], s[i + 1..]];
    }
  }

  lemma {:induction false} NoSlash(s: string)
    ensures |Split(s, '/')| == 1 <==> Lacks(s, '/')
  {
  }

  lemma ParseMeaning(s: string, group: string, version: string)
    requires s != ""
    ensures ParseGroupVersion(s) == Some((group, version)) <==> Denotes(s, group, version)
  {
    NoSlash(s);
    OneSlash(s, group, version);
  }

  /** An object has a resource exactly when the table has its kind and its apiVersion reads; and
      which it is. */
  lemma GvrMeaning(po: PlanObject, resources: map<string, string>, g: Gvr)
    ensures GvrFor(po.body, po.kind, resources) == Some(g) <==>
              && po.kind in resources && g.resource == resources[po.kind]
              && Denotes(TextAt(po.body, [Key("apiVersion")]), g.group, g.version)
  {
    GetMember(Json.Obj(po.body), "apiVersion");
    var s := StringAt(po.body, "apiVersion");
    if s != "" { ParseMeaning(s, g.group, g.version); }
  }

  // ---------------------------------------------------------------- lists of objects

  /** These items name, in order, exactly the objects at the places that pass. */
  ghost predicate AreThose(items: seq<DryRunItem>, objects: seq<PlanObject>, n: nat, test: nat -> bool)
    requires n <= |objects|
  {
    exists at: seq<nat> :: Sifted(at, n, test) && Names(items, objects, at)
  }

  ghost predicate Sifted(at: seq<nat>, n: nat, test: nat -> bool) {
    && (forall k :: 0 <= k < |at| ==> at[k] < n)
    && (forall k, l :: 0 <= k < l < |at| ==> at[k] < at[l])
    && (forall i: nat :: i < n ==> (i in at <==> test(i)))
  }

  ghost predicate Names(items: seq<DryRunItem>, objects: seq<PlanObject>, at: seq<nat>) {
    && |items| == |at|
    && forall k :: 0 <= k < |at| ==>
         at[k] < |objects| && items[k].namespace == objects[at[k]].namespace &&
         items[k].name == objects[at[k]].name && items[k].kind == objects[at[k]].kind
  }

  lemma SiftedNext(at: seq<nat>, n: nat, test: nat -> bool)
    requires Sifted(at, n, test)
    ensures Sifted(if test(n) then at + [n] else at, n + 1, test)
  {
    var r := if test(n) then at + [n] else at;
    assert n !in at;
    forall i: nat | i < n + 1 ensures i in r <==> test(i) {
      assert i in r <==> i in at || (i == n && test(n));
    }
  }

  lemma NamesNext(items: seq<DryRunItem>, objects: seq<PlanObject>, at: seq<nat>, n: nat)
    requires n < |objects| && Names(items, objects, at)
    ensures Names(items + [Named(objects[n])], objects, at + [n])
  {
  }

  lemma ThoseNext(items: seq<DryRunItem>, objects: seq<PlanObject>, n: nat, test: nat -> bool)
    requires n < |objects| && AreThose(items, objects, n, test)
    ensures AreThose(if test(n) then items + [Named(objects[n])] else items, objects, n + 1, test)
  {
    var at: seq<nat> :| Sifted(at, n, test) && Names(items, objects, at);
    SiftedNext(at, n, test);
    if test(n) { NamesNext(items, objects, at, n); }
  }

  lemma NoneThose(objects: seq<PlanObject>, test: nat -> bool)
    ensures AreThose([], objects, 0, test)
  {
    assert Sifted([], 0, test) && Names([], objects, []);
  }

  /** The places below `n` that pass. */
  function Upto(objects: seq<PlanObject>, can: PlanObject -> bool, n: nat): (at: seq<nat>)
    requires n <= |objects|
    ensures InRange(at, objects)
  {
    var at := Where(objects[..n], can);
    assert forall k :: 0 <= k < |at| ==> at[k] < |objects[..n]|;
    at
  }

  lemma UptoNext(objects: seq<PlanObject>, can: PlanObject -> bool, n: nat)
    requires n < |objects|
    ensures var at := Upto(objects, can, n); Upto(objects, can, n + 1) == if can(objects[n]) then at + [n] else at
  {
    assert objects[..n + 1][..n] == objects[..n];
  }

  lemma {:induction false} UptoAll(objects: seq<PlanObject>, can: PlanObject -> bool)
    ensures Upto(objects, can, |objects|) == Where(objects, can)
  {
    assert objects[..|objects|] == objects;
  }

  // ---------------------------------------------------------------- the dry run

  /** Sent, and answered `a`. */
  function Met(objects: seq<PlanObject>, resources: map<string, string>, reply: nat -> Answer, a: Answer): nat -> bool {
    (i: nat) => i < |objects| && Sendable(objects[i], resources) && reply(i) == a
  }

  /** Sent, and failed: not found counts where no namespace is to be created first. */
  function Fails(objects: seq<PlanObject>, resources: map<string, string>, reply: nat -> Answer): nat -> bool {
    (i: nat) => i < |objects| && Sendable(objects[i], resources) &&
      (reply(i) == Failed || (reply(i) == NotFound && objects[i].namespace == ""))
  }

  function Unsent(objects: seq<PlanObject>, resources: map<string, string>): nat -> bool {
    (i: nat) => i < |objects| && !Sendable(objects[i], resources)
  }

  lemma {:induction false} PickedNext(objects: seq<PlanObject>, at: seq<nat>, i: nat, reply: nat -> Answer, f: Fate)
    requires InRange(at, objects) && i < |objects|
    ensures InRange(at + [i], objects)
    ensures Picked(objects, at + [i], reply, f) ==
              if DryFate(objects[i], reply(i)) == f then Picked(objects, at, reply, f) + [Named(objects[i])]
              else Picked(objects, at, reply, f)
  {
    assert (at + [i])[..|at|] == at;
  }

  lemma {:induction false} PickedStep(objects: seq<PlanObject>, can: PlanObject -> bool, reply: nat -> Answer, f: Fate,
                   test: nat -> bool, m: nat)
    requires m < |objects| && (test(m) <==> can(objects[m]) && DryFate(objects[m], reply(m)) == f)
    requires AreThose(Picked(objects, Upto(objects, can, m), reply, f), objects, m, test)
    ensures AreThose(Picked(objects, Upto(objects, can, m + 1), reply, f), objects, m + 1, test)
  {
    var picked := Picked(objects, Upto(objects, can, m), reply, f);
    UptoNext(objects, can, m);
    if can(objects[m]) { PickedNext(objects, Upto(objects, can, m), m, reply, f); }
    ThoseNext(picked, objects, m, test);
  }

  lemma {:induction false} PickedThose(objects: seq<PlanObject>, can: PlanObject -> bool, reply: nat -> Answer,
                                       f: Fate, test: nat -> bool, n: nat)
    requires n <= |objects|
    requires forall i: nat :: i < |objects| ==> (test(i) <==> can(objects[i]) && DryFate(objects[i], reply(i)) == f)
    ensures AreThose(Picked(objects, Upto(objects, can, n), reply, f), objects, n, test)
  {
    if n == 0 {
      NoneThose(objects, test);
    } else {
      PickedThose(objects, can, reply, f, test, n - 1);
      PickedStep(objects, can, reply, f, test, n - 1);
    }
  }

  lemma SkippedThose(objects: seq<PlanObject>, resources: map<string, string>)
    ensures AreThose(NamedAt(objects, Places(objects, resources, false)), objects, |objects|,
              Unsent(objects, resources))
  {
    var at := Places(objects, resources, false);
    WhereMeaning(objects, CanSend(resources, false));
    assert Sifted(at, |objects|, Unsent(objects, resources)) && Names(NamedAt(objects, at), objects, at);
  }

  /** WHAT A DRY RUN REPORTS: the objects without a resource are skipped, conflicts are in conflict,
      failures in error, each list in the order of the plan, and the count is that of the others
      the server took. */
  lemma DryRunExactly(objects: seq<PlanObject>, resources: map<string, string>, reply: nat -> Answer)
    ensures var r, n := DryRunOf(objects, resources, reply), |objects|;
            && AreThose(r.skipped, objects, n, Unsent(objects, resources))
            && AreThose(r.conflicts, objects, n, Met(objects, resources, reply, Conflict))
            && AreThose(r.errors, objects, n, Fails(objects, resources, reply))
            && exists done :: AreThose(done, objects, n, Met(objects, resources, reply, Done)) && r.applied == |done|
  {
    var n := |objects|;
    SkippedThose(objects, resources);
    var can := CanSend(resources, true);
    UptoAll(objects, can);
    PickedThose(objects, can, reply, InConflict, Met(objects, resources, reply, Conflict), n);
    PickedThose(objects, can, reply, Errored, Fails(objects, resources, reply), n);
    PickedThose(objects, can, reply, Applied, Met(objects, resources, reply, Done), n);
  }

  // ---------------------------------------------------------------- the apply

  /** Who is to be in which namespace. */
  function Homes(objects: seq<PlanObject>, resources: map<string, string>): (nat, string) -> bool {
    (i: nat, ns: string) => i < |objects| && Homed(objects[i], resources, ns)
  }

  /** The first object that is to be in its namespace, which could not be ensured. The later ones
      there are sent all the same. */
  predicate Homeless(objects: seq<PlanObject>, homes: (nat, string) -> bool, spaces: string -> bool, i: nat)
    requires i < |objects|
  {
    var ns := objects[i].namespace;
    homes(i, ns) && !spaces(ns) && forall j: nat :: j < i ==> !homes(j, ns)
  }

  /** Not sent, or not taken by the server. */
  function Erring(objects: seq<PlanObject>, can: PlanObject -> bool, homes: (nat, string) -> bool,
                  reply: nat -> Answer, spaces: string -> bool): nat -> bool
  {
    (i: nat) => i < |objects| && can(objects[i]) && (Homeless(objects, homes, spaces, i) || reply(i) != Done)
  }

  /** What the first `n` objects leave of an apply. */
  ghost predicate Leaves(objects: seq<PlanObject>, can: PlanObject -> bool, homes: (nat, string) -> bool,
                         reply: nat -> Answer, spaces: string -> bool, n: nat, p: Progress)
    requires n <= |objects|
  {
    && (forall ns :: ns in p.ensured <==> exists i: nat :: i < n && homes(i, ns))
    && (forall ns :: EnsureNamespace(ns) in p.sent <==> ns in p.ensured)
    && (forall i: nat :: Put(i) in p.sent <==> i < n && can(objects[i]) && !Homeless(objects, homes, spaces, i))
    && AreThose(p.errors, objects, n, Erring(objects, can, homes, reply, spaces))
  }

  /** One item, told by the object's namespace alone. */
  ghost predicate Steps(p: Progress, r: Progress, po: PlanObject, i: nat, opens: bool, lost: bool, done: bool) {
    && r.ensured == (if opens then p.ensured + {po.namespace} else p.ensured)
    && r.sent == p.sent + (if opens then [EnsureNamespace(po.namespace)] else []) + (if lost then [] else [Put(i)])
    && r.errors == (if lost || !done then p.errors + [Named(po)] else p.errors)
  }

  lemma StepShape(p: Progress, po: PlanObject, i: nat, resources: map<string, string>, reply: nat -> Answer,
                  spaces: string -> bool)
    ensures var opens := Homed(po, resources, po.namespace) && po.namespace !in p.ensured;
            Steps(p, ApplyStep(p, po, i, resources, reply, spaces), po, i, opens, opens && !spaces(po.namespace),
                  reply(i) == Done)
  {
    assert p.sent + [] == p.sent;
  }

  lemma SentNext(p: Progress, r: Progress, po: PlanObject, i: nat, opens: bool, lost: bool, done: bool, x: Sent)
    requires Steps(p, r, po, i, opens, lost, done)
    ensures x in r.sent <==> x in p.sent || (opens && x == EnsureNamespace(po.namespace)) || (!lost && x == Put(i))
  {
  }

  lemma EnsuredNext(homes: (nat, string) -> bool, n: nat, was: set<string>, now: set<string>, ns: string)
    requires forall s :: s in was <==> exists i: nat :: i < n && homes(i, s)
    requires forall s :: homes(n, s) ==> s == ns
    requires now == if homes(n, ns) && ns !in was then was + {ns} else was
    ensures forall s :: s in now <==> exists i: nat :: i < n + 1 && homes(i, s)
  {
    forall s ensures s in now <==> exists i: nat :: i < n + 1 && homes(i, s) {
      assert homes(n, s) ==> s in now;
    }
  }

  lemma StepLeaves(objects: seq<PlanObject>, can: PlanObject -> bool, homes: (nat, string) -> bool,
                   reply: nat -> Answer, spaces: string -> bool, n: nat, p: Progress, r: Progress)
    requires n < |objects| && Leaves(objects, can, homes, reply, spaces, n, p) && can(objects[n])
    requires forall ns :: homes(n, ns) ==> ns == objects[n].namespace
    requires var ns := objects[n].namespace;
             var opens := homes(n, ns) && ns !in p.ensured;
             Steps(p, r, objects[n], n, opens, opens && !spaces(ns), reply(n) == Done)
    ensures Leaves(objects, can, homes, reply, spaces, n + 1, r)
  {
    var ns := objects[n].namespace;
    var opens := homes(n, ns) && ns !in p.ensured;
    EnsuredNext(homes, n, p.ensured, r.ensured, ns);
    assert Homeless(objects, homes, spaces, n) <==> opens && !spaces(ns);
    ThoseNext(p.errors, objects, n, Erring(objects, can, homes, reply, spaces));
    forall x ensures x in r.sent <==>
                     x in p.sent || (opens && x == EnsureNamespace(ns)) || ((opens ==> spaces(ns)) && x == Put(n))
    {
      SentNext(p, r, objects[n], n, opens, opens && !spaces(ns), reply(n) == Done, x);
    }
  }

  lemma {:induction false} ApplyLeaves(objects: seq<PlanObject>, resources: map<string, string>, reply: nat -> Answer,
                                       spaces: string -> bool, n: nat)
    requires n <= |objects|
    ensures var can := CanSend(resources, true);
            Leaves(objects, can, Homes(objects, resources), reply, spaces, n,
                   Apply.ApplyAll(objects, Upto(objects, can, n), resources, reply, spaces))
  {
    var can, homes := CanSend(resources, true), Homes(objects, resources);
    if n == 0 {
      NoneThose(objects, Erring(objects, can, homes, reply, spaces));
    } else {
      var m := n - 1;
      var at := Upto(objects, can, m);
      var p := Apply.ApplyAll(objects, at, resources, reply, spaces);
      ApplyLeaves(objects, resources, reply, spaces, m);
      UptoNext(objects, can, m);
      if can(objects[m]) {
        assert (at + [m])[..|at|] == at;
        StepShape(p, objects[m], m, resources, reply, spaces);
        StepLeaves(objects, can, homes, reply, spaces, m, p,
                   ApplyStep(p, objects[m], m, resources, reply, spaces));
      } else {
        UnsentLeaves(objects, can, homes, reply, spaces, m, p);
      }
    }
  }

  lemma UnsentLeaves(objects: seq<PlanObject>, can: PlanObject -> bool, homes: (nat, string) -> bool,
                     reply: nat -> Answer, spaces: string -> bool, n: nat, p: Progress)
    requires n < |objects| && Leaves(objects, can, homes, reply, spaces, n, p) && !can(objects[n])
    requires forall ns :: !homes(n, ns)
    ensures Leaves(objects, can, homes, reply, spaces, n + 1, p)
  {
    ThoseNext(p.errors, objects, n, Erring(objects, can, homes, reply, spaces));
  }

  /** WHAT AN APPLY SENDS: it ensures exactly the namespaces some object is to be in, and sends
      exactly the objects with a resource but for the first of a namespace it could not ensure;
      in error are that one and those the server did not take. */
  lemma ApplyExactly(objects: seq<PlanObject>, resources: map<string, string>, reply: nat -> Answer,
                     spaces: string -> bool)
    ensures var r := ApplyOf(objects, resources, reply, spaces);
            var can, homes := CanSend(resources, true), Homes(objects, resources);
            && (forall ns :: EnsureNamespace(ns) in r.sent <==>
                  exists i: nat :: i < |objects| && Homed(objects[i], resources, ns))
            && (forall i: nat :: Put(i) in r.sent <==>
                  i < |objects| && Sendable(objects[i], resources) && !Homeless(objects, homes, spaces, i))
            && AreThose(r.errors, objects, |objects|, Erring(objects, can, homes, reply, spaces))
            && AreThose(r.skipped, objects, |objects|, Unsent(objects, resources))
  {
    var can, homes := CanSend(resources, true), Homes(objects, resources);
    UptoAll(objects, can);
    ApplyLeaves(objects, resources, reply, spaces, |objects|);
    SkippedThose(objects, resources);
    var p := Apply.ApplyAll(objects, Places(objects, resources, true), resources, reply, spaces);
    forall ns
      ensures EnsureNamespace(ns) in p.sent <==> exists i: nat :: i < |objects| && Homed(objects[i], resources, ns)
    {
      assert forall i: nat :: i < |objects| ==> (homes(i, ns) <==> Homed(objects[i], resources, ns));
    }
  }
}
