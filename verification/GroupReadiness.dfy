/**
 Many groups nested through a fixed set of memberships. Each turn is one pass over one group; the
 child statuses it reads may be any earlier version the cache still serves, each child at its own
 age, and OpenBao and the entities may answer anything.
 */
module GroupReadiness {
  import opened Kube
  import opened Conditions
  import opened Group

  /** `order` lists the groups by when a stored version of them first said Ready. */
  datatype Cluster = Cluster(
    memberships: seq<Membership>, objects: map<string, seq<GroupObject>>, order: seq<string>)

  datatype Action =
    | Turn(name: string, remote: Remote, view: View, input: PassInput)
    | EditSpec(name: string, generation: int, spec: GroupSpec)

  predicate SaysReady(o: GroupObject) {
    IsTrue(o.status.conditions, READY)
  }

  predicate EverReady(objects: map<string, seq<GroupObject>>, g: string) {
    g in objects && exists k :: 0 <= k < |objects[g]| && SaysReady(objects[g][k])
  }

  predicate Shaped(c: Cluster) {
    forall g :: g in c.objects ==> c.objects[g] != []
  }

  /** The pass sees the fixed memberships, and every child as some stored version of it was. */
  predicate Served(c: Cluster, v: View) {
    && v.memberships == c.memberships
    && forall g :: g in v.groups ==>
         g in c.objects &&
         exists k :: 0 <= k < |c.objects[g]| && v.groups[g] == Dependency(SaysReady(c.objects[g][k]), c.objects[g][k].status.id)
  }

  predicate Enabled(c: Cluster, a: Action) {
    match a
    case Turn(g, remote, v, i) =>
      g in c.objects && i.snapshot < |c.objects[g]| && FaithfulReplies(g, remote, i) && Served(c, v)
    case EditSpec(g, _, _) => g in c.objects
  }

  function Step(c: Cluster, a: Action): (c': Cluster)
    requires Shaped(c) && Enabled(c, a)
    ensures Shaped(c')
  {
    match a
    case Turn(g, remote, v, i) =>
      PassHasFacts(g, remote, c.objects[g], v, i);
      var objects := c.objects[g := Pass(g, remote, c.objects[g], v, i).objects];
      var first := EverReady(objects, g) && !EverReady(c.objects, g);
      c.(objects := objects, order := if first then c.order + [g] else c.order)
    case EditSpec(g, n, spec) =>
      var versions := c.objects[g];
      c.(objects := c.objects[g := versions + [GroupObject(n, spec, versions[|versions| - 1].status)]])
  }

  predicate Runs(c: Cluster, actions: seq<Action>)
    requires Shaped(c)
    decreases |actions|
  {
    actions == [] ||
    (Enabled(c, actions[0]) && Runs(Step(c, actions[0]), actions[1..]))
  }

  function Run(c: Cluster, actions: seq<Action>): Cluster
    requires Shaped(c) && Runs(c, actions)
    decreases |actions|
  {
    if actions == [] then c else Run(Step(c, actions[0]), actions[1..])
  }

  /** `child` is claimed as a subgroup of `parent`. */
  predicate Nested(ms: seq<Membership>, parent: string, child: string) {
    exists m :: m in ms && m.groupRef == parent && m.entityRef.None? && m.memberGroupRef == Some(child)
  }

  // ---------------------------------------------------------------------------
  // Ready only through a resolved pass
  // ---------------------------------------------------------------------------

  lemma FailedIsNotReady(remote: Remote, objects: seq<GroupObject>, i: PassInput, status: GroupStatus, m: Mark)
    requires i.snapshot < |objects| && !m.Ready?
    ensures var p := Failed(remote, objects, i, status, m);
            p.objects == objects || (|p.objects| == |objects| + 1 && p.objects[..|objects|] == objects && !SaysReady(p.objects[|objects|]))
  {
    ApplyThenFind(status.conditions, m);
    hide Conditions.Apply;
  }

  ghost predicate ReadyOnlyIfResolved(name: string, objects: seq<GroupObject>, v: View, i: PassInput, p: PassResult)
    requires i.snapshot < |objects|
  {
    || p.objects == objects
    || (&& |p.objects| == |objects| + 1 && p.objects[..|objects|] == objects
        && (SaysReady(p.objects[|objects|]) ==> Resolve(name, objects[i.snapshot].spec.typ, v).Resolved?))
  }

  lemma ConvergedReady(name: string, remote: Remote, objects: seq<GroupObject>, v: View, i: PassInput,
                       status: GroupStatus, observed: RemoteGroup)
    requires i.snapshot < |objects| && status == objects[i.snapshot].status.(id := status.id)
    ensures ReadyOnlyIfResolved(name, objects, v, i, Converge(name, remote, objects, v, i, status, observed))
  {
    hide Conditions.Apply, Failed, Desired, GroupMatches, Resolve, SaysReady, Finish;
    var g := objects[i.snapshot].generation;
    var r := Resolve(name, objects[i.snapshot].spec.typ, v);
    if r.Resolved? {
      ConvergeHasFacts(name, remote, objects, v, i, status, observed);
    } else {
      FailedIsNotReady(remote, objects, i, status, Error(g, "GroupIdentityMismatch", Some(observed.name), i.clock));
      if !i.listing.Fine? && !i.listing.Crashed() {
        FailedIsNotReady(remote, objects, i, status, Error(g, "GroupMembershipReadFailed", Some(i.listing.message), i.clock));
      }
      FailedIsNotReady(remote, objects, i, status, Stalled(g, "DependencyNotReady", Some(r.message), i.clock, i.clock));
      FailedIsNotReady(remote, objects, i, status, Error(g, "GroupMembershipResolutionFailed", Some(r.message), i.clock));
    }
  }

  /** A version a pass stores says Ready only if the pass resolved every membership of the group. */
  lemma PassReady(name: string, remote: Remote, objects: seq<GroupObject>, v: View, i: PassInput)
    requires i.snapshot < |objects| && FaithfulReplies(name, remote, i)
    ensures ReadyOnlyIfResolved(name, objects, v, i, Pass(name, remote, objects, v, i))
  {
    hide Conditions.Apply, Failed, Converge, Resolve, SaysReady, FaithfulReplies, AcquireByName;
    var obj := objects[i.snapshot];
    if i.dependency.Some? {
      FailedIsNotReady(remote, objects, i, obj.status, Stalled(obj.generation, "DependencyNotReady", i.dependency, i.clock, i.clock));
    } else {
      var a := Acquire(name, obj.spec, obj.status, remote, i);
      if a.NotBound? {
        FailedIsNotReady(a.remote, objects, i, obj.status.(id := a.id), Error(obj.generation, "GroupAcquireFailed", Some(a.message), i.clock));
      } else if a.Bound? {
        ConvergedReady(name, a.remote, objects, v, i, obj.status.(id := a.id), a.observed);
      }
    }
  }

  // ---------------------------------------------------------------------------
  // The order of becoming Ready
  // ---------------------------------------------------------------------------

  /** Every group that was ever Ready is listed, after all of its claimed subgroups. */
  ghost predicate Ordered(c: Cluster) {
    && Shaped(c)
    && (forall g :: EverReady(c.objects, g) ==> g in c.order)
    && (forall k, child :: 0 <= k < |c.order| && Nested(c.memberships, c.order[k], child) ==> child in c.order[..k])
  }

  /** A resolved view has seen every claimed subgroup Ready. */
  lemma ChildrenWereReady(c: Cluster, g: string, typ: GroupType, v: View, child: string)
    requires Served(c, v) && Resolve(g, typ, v).Resolved? && Nested(c.memberships, g, child)
    ensures EverReady(c.objects, child)
  {
    hide Resolve, SaysReady;
    ResolveIsExact(g, typ, v);
    var m :| m in c.memberships && m.groupRef == g && m.entityRef.None? && m.memberGroupRef == Some(child);
    assert ResolveOne(g, v, m).Resolved?;
    assert v.groups[child].ready;
  }

  lemma StepKeepsOrdered(c: Cluster, a: Action)
    requires Ordered(c) && Enabled(c, a)
    ensures Ordered(Step(c, a)) && Step(c, a).memberships == c.memberships && c.order <= Step(c, a).order
  {
    hide Pass, Resolve, SaysReady, FaithfulReplies;
    var c' := Step(c, a);
    match a
    case EditSpec(g, n, spec) =>
      assert SaysReady(c'.objects[g][|c.objects[g]|]) == SaysReady(c.objects[g][|c.objects[g]| - 1]) by { SameStatusSameReady(c'.objects[g][|c.objects[g]|], c.objects[g][|c.objects[g]| - 1]); }
      forall h | EverReady(c'.objects, h) ensures h in c'.order {
        var k :| 0 <= k < |c'.objects[h]| && SaysReady(c'.objects[h][k]);
        var k' := if h == g && k == |c.objects[g]| then k - 1 else k;
        assert SaysReady(c.objects[h][k']);
      }
    case Turn(g, remote, v, i) =>
      PassReady(g, remote, c.objects[g], v, i);
      var p := Pass(g, remote, c.objects[g], v, i);
      forall h | EverReady(c'.objects, h) ensures h in c'.order {
        if h != g {
          assert EverReady(c.objects, h);
        }
      }
      if c'.order != c.order {
        assert forall k :: 0 <= k < |c.objects[g]| ==> !SaysReady(c.objects[g][k]);
        var k :| 0 <= k < |p.objects| && SaysReady(p.objects[k]);
        assert k == |c.objects[g]|;
        forall child | Nested(c.memberships, g, child) ensures child in c.order {
          ChildrenWereReady(c, g, c.objects[g][i.snapshot].spec.typ, v, child);
        }
      }
      forall k, child | 0 <= k < |c'.order| && Nested(c'.memberships, c'.order[k], child)
        ensures child in c'.order[..k]
      {
        if k < |c.order| {
          assert child in c.order[..k];
          assert c'.order[..k] == c.order[..k];
        } else {
          assert c'.order[..k] == c.order;
        }
      }
  }

  lemma SameStatusSameReady(a: GroupObject, b: GroupObject)
    requires a.status == b.status
    ensures SaysReady(a) == SaysReady(b)
  {
  }

  lemma {:induction false} RunKeepsOrdered(c: Cluster, actions: seq<Action>)
    requires Ordered(c) && Runs(c, actions)
    ensures Ordered(Run(c, actions)) && Run(c, actions).memberships == c.memberships
    decreases |actions|
  {
    if actions != [] {
      StepKeepsOrdered(c, actions[0]);
      RunKeepsOrdered(Step(c, actions[0]), actions[1..]);
    }
  }

  /** No stored version of any group says Ready yet. */
  ghost predicate NoneReady(c: Cluster) {
    Shaped(c) && c.order == [] && forall g :: !EverReady(c.objects, g)
  }

  /**
   In every run that starts with no group Ready, groups become Ready in an order in which each
   claimed subgroup comes strictly before its parent, however stale the child statuses were.
   */
  lemma SubgroupsReadyFirst(c: Cluster, actions: seq<Action>, g: string, child: string)
    requires NoneReady(c) && Runs(c, actions)
    requires EverReady(Run(c, actions).objects, g) && Nested(c.memberships, g, child)
    ensures exists j, k :: 0 <= j < k < |Run(c, actions).order| && Run(c, actions).order[j] == child && Run(c, actions).order[k] == g
  {
    RunKeepsOrdered(c, actions);
    var order := Run(c, actions).order;
    var k :| 0 <= k < |order| && order[k] == g;
    assert child in order[..k];
    var j :| 0 <= j < k && order[j] == child;
  }

  /** `path` follows claimed subgroups from parent to child. */
  ghost predicate Descends(ms: seq<Membership>, path: seq<string>) {
    forall j :: 0 <= j < |path| - 1 ==> Nested(ms, path[j], path[j + 1])
  }

  lemma {:induction false} PathGoesEarlier(c: Cluster, path: seq<string>, k: nat)
    requires Ordered(c) && |path| >= 2 && Descends(c.memberships, path)
    requires k < |c.order| && c.order[k] == path[0]
    ensures path[|path| - 1] in c.order[..k]
    decreases |path|
  {
    assert Nested(c.memberships, path[0], path[1]);
    var j :| 0 <= j < k && c.order[j] == path[1];
    if |path| > 2 {
      var rest := path[1..];
      forall n | 0 <= n < |rest| - 1 ensures Nested(c.memberships, rest[n], rest[n + 1]) {
        assert Nested(c.memberships, path[n + 1], path[n + 1 + 1]);
      }
      PathGoesEarlier(c, rest, j);
      assert c.order[..j] <= c.order[..k];
    }
  }

  lemma {:induction false} NoCycleAt(c: Cluster, cycle: seq<string>, k: nat)
    requires Ordered(c) && |cycle| >= 2 && cycle[0] == cycle[|cycle| - 1] && Descends(c.memberships, cycle)
    ensures k < |c.order| ==> c.order[k] != cycle[0]
    decreases k
  {
    if k < |c.order| && c.order[k] == cycle[0] {
      PathGoesEarlier(c, cycle, k);
      var j :| 0 <= j < k && c.order[j] == cycle[0];
      NoCycleAt(c, cycle, j);
    }
  }

  /** A group on a membership cycle of any length never becomes Ready, in any run. */
  lemma CyclesNeverReady(c: Cluster, actions: seq<Action>, cycle: seq<string>)
    requires NoneReady(c) && Runs(c, actions)
    requires |cycle| >= 2 && cycle[0] == cycle[|cycle| - 1] && Descends(c.memberships, cycle)
    ensures !EverReady(Run(c, actions).objects, cycle[0])
  {
    var c' := Run(c, actions);
    RunKeepsOrdered(c, actions);
    if EverReady(c'.objects, cycle[0]) {
      var k :| 0 <= k < |c'.order| && c'.order[k] == cycle[0];
      NoCycleAt(c', cycle, k);
    }
  }
}
