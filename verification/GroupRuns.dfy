/**
 Membership ownership over whole runs: passes that may read stale versions and stop at any call,
 interleaved with claim changes, spec edits, outside edits of OpenBao and loss of remote groups.
 */
module GroupRuns {
  import opened Kube
  import opened StringLists
  import opened Group

  /** The newest object version and the newest view come last; older ones may still be served. */
  datatype World = World(name: string, remote: Remote, objects: seq<GroupObject>, views: seq<View>)

  datatype Action =
    | DoPass(input: PassInput)
    | OutsideWrite(id: string, group: RemoteGroup)
    | OutsideDelete(id: string)
    | EditSpec(generation: int, spec: GroupSpec)
    | EditView(view: View)

  predicate Shaped(w: World) {
    w.objects != [] && w.views != []
  }

  function Newest(w: World): GroupObject
    requires Shaped(w)
  {
    w.objects[|w.objects| - 1]
  }

  predicate Enabled(w: World, a: Action)
    requires Shaped(w)
  {
    match a
    case DoPass(i) => i.snapshot < |w.objects| && i.view < |w.views| && FaithfulReplies(w.name, w.remote, i)
    case OutsideWrite(id, _) => id != ""
    case _ => true
  }

  function PassOf(w: World, i: PassInput): PassResult
    requires Shaped(w) && Enabled(w, DoPass(i))
  {
    Pass(w.name, w.remote, w.objects, w.views[i.view], i)
  }

  function Step(w: World, a: Action): (w': World)
    requires Shaped(w) && Enabled(w, a)
    ensures Shaped(w') && w'.name == w.name && w.views <= w'.views
  {
    match a
    case DoPass(i) => var p := PassOf(w, i); StoreGrows(w, i); w.(remote := p.remote, objects := p.objects)
    case OutsideWrite(id, g) => w.(remote := w.remote[id := g])
    case OutsideDelete(id) => w.(remote := w.remote - {id})
    case EditSpec(g, spec) => w.(objects := w.objects + [GroupObject(g, spec, Newest(w).status)])
    case EditView(v) => w.(views := w.views + [v])
  }

  predicate Runs(w: World, actions: seq<Action>)
    requires Shaped(w)
    decreases |actions|
  {
    actions == [] || (Enabled(w, actions[0]) && Runs(Step(w, actions[0]), actions[1..]))
  }

  function Run(w: World, actions: seq<Action>): (w': World)
    requires Shaped(w) && Runs(w, actions)
    ensures Shaped(w') && w'.name == w.name
    decreases |actions|
  {
    if actions == [] then w else Run(Step(w, actions[0]), actions[1..])
  }

  // ---------------------------------------------------------------------------
  // What one pass does to OpenBao and to the store
  // ---------------------------------------------------------------------------

  lemma PassSummary(w: World, i: PassInput)
    requires Shaped(w) && Enabled(w, DoPass(i))
    ensures PassFacts(w.name, w.remote, w.objects, w.views[i.view], i, PassOf(w, i))
  {
    hide Pass, PassFacts;
    PassHasFacts(w.name, w.remote, w.objects, w.views[i.view], i);
  }

  /** The store only grows, by at most one version, and keeps spec and generation. */
  lemma StoreGrows(w: World, i: PassInput)
    requires Shaped(w) && Enabled(w, DoPass(i))
    ensures var p := PassOf(w, i);
            || p.objects == w.objects
            || (&& i.snapshot + 1 == |w.objects|
                && |p.objects| == |w.objects| + 1
                && p.objects[..|w.objects|] == w.objects
                && p.objects[|w.objects|].spec == Newest(w).spec
                && p.objects[|w.objects|].generation == Newest(w).generation)
  {
    PassSummary(w, i);
    hide Pass;
  }

  /**
   A pass changes at most the group it is bound to, and there the members become
   (previous minus managed in the version read) plus the resolved claims. A created group is new.
   */
  lemma PassEffectOnRemote(w: World, i: PassInput, id: string, kind: Kind)
    requires Shaped(w) && Enabled(w, DoPass(i)) && id in w.remote
    ensures var p := PassOf(w, i);
            && id in p.remote
            && (|| p.remote[id] == w.remote[id]
                || (&& p.reached && p.target == id && p.updates == 1
                    && Members(p.remote, id, kind) ==
                       Members(w.remote, id, kind) - Managed(w.objects[i.snapshot].status, kind)
                       + Elems(ClaimIDs(p.claims, kind))))
  {
    hide Pass, Desired, GroupMatches, Normalize, FaithfulReplies;
    PassSummary(w, i);
    var p := PassOf(w, i);
    if p.reached {
      var status := w.objects[i.snapshot].status.(id := p.target);
      DesiredMembers(w.name, w.objects[i.snapshot].spec, status, p.base[p.target], p.claims, kind);
    }
  }

  /** The newest version carries the managed IDs it had, or those of the claims once recorded. */
  lemma PassEffectOnManaged(w: World, i: PassInput, kind: Kind)
    requires Shaped(w) && Enabled(w, DoPass(i))
    ensures Managed(Newest(Step(w, DoPass(i))).status, kind) ==
            if PassOf(w, i).recorded then Elems(ClaimIDs(PassOf(w, i).claims, kind)) else Managed(Newest(w).status, kind)
  {
    hide Pass, Desired, GroupMatches, Normalize, FaithfulReplies, Resolve, Adds, ClaimIDs;
    PassSummary(w, i);
    NormalizeCanonical(ClaimIDs(PassOf(w, i).claims, kind));
  }

  lemma ReachedClaims(w: World, i: PassInput)
    requires Shaped(w) && Enabled(w, DoPass(i))
    ensures PassOf(w, i).reached ==>
              Resolve(w.name, w.objects[i.snapshot].spec.typ, w.views[i.view]) == Resolved(PassOf(w, i).claims)
    ensures PassOf(w, i).recorded ==> PassOf(w, i).reached && i.snapshot + 1 == |w.objects|
  {
    hide Pass, Desired, GroupMatches, Normalize, FaithfulReplies, Resolve, Adds, Appends;
    PassSummary(w, i);
  }

  // ---------------------------------------------------------------------------
  // No pass removes a member that was never claimed
  // ---------------------------------------------------------------------------

  /** Some view up to now claimed `x` for this group. */
  ghost predicate EverClaimed(w: World, kind: Kind, x: string) {
    exists k :: 0 <= k < |w.views| && Claimed(w.name, w.views[k], kind, x)
  }

  ghost predicate ManagedWereClaimed(w: World) {
    forall k, kind, x :: 0 <= k < |w.objects| && x in Managed(w.objects[k].status, kind) ==> EverClaimed(w, kind, x)
  }

  lemma StepKeepsManagedClaimed(w: World, a: Action)
    requires Shaped(w) && Enabled(w, a) && ManagedWereClaimed(w)
    ensures ManagedWereClaimed(Step(w, a))
  {
    hide PassOf, FaithfulReplies, Claimed;
    var w' := Step(w, a);
    if a.DoPass? { StoreGrows(w, a.input); }
    forall k, kind, x | 0 <= k < |w'.objects| && x in Managed(w'.objects[k].status, kind)
      ensures EverClaimed(w', kind, x)
    {
      if k < |w.objects| {
        assert w'.objects[k] == w.objects[k];
        assert EverClaimed(w, kind, x);
      } else if a.DoPass? {
        assert w'.objects[k] == Newest(w');
        NewVersionClaimed(w, a.input, kind, x);
      } else {
        assert x in Managed(w.objects[|w.objects| - 1].status, kind);
        assert EverClaimed(w, kind, x);
      }
      var j :| 0 <= j < |w.views| && Claimed(w.name, w.views[j], kind, x);
      assert w'.views[j] == w.views[j];
    }
  }

  lemma NewVersionClaimed(w: World, i: PassInput, kind: Kind, x: string)
    requires Shaped(w) && Enabled(w, DoPass(i)) && ManagedWereClaimed(w)
    requires x in Managed(Newest(Step(w, DoPass(i))).status, kind)
    ensures EverClaimed(w, kind, x)
  {
    hide Pass, Resolve, ClaimIDs, FaithfulReplies, Claimed;
    var p := PassOf(w, i);
    PassEffectOnManaged(w, i, kind);
    if p.recorded {
      ReachedClaims(w, i);
      ClaimIDsElems(p.claims, kind);
      ResolveIsExact(w.name, w.objects[i.snapshot].spec.typ, w.views[i.view]);
      assert Claimed(w.name, w.views[i.view], kind, x);
    } else {
      assert x in Managed(w.objects[|w.objects| - 1].status, kind);
    }
  }

  lemma {:induction false} RunKeepsManagedClaimed(w: World, actions: seq<Action>)
    requires Shaped(w) && Runs(w, actions) && ManagedWereClaimed(w)
    ensures ManagedWereClaimed(Run(w, actions))
    decreases |actions|
  {
    if actions != [] {
      StepKeepsManagedClaimed(w, actions[0]);
      RunKeepsManagedClaimed(Step(w, actions[0]), actions[1..]);
    }
  }

  /** A group object as first applied: nothing managed yet. OpenBao and the claims are arbitrary. */
  ghost predicate Fresh(w: World) {
    Shaped(w) && |w.objects| == 1 && forall kind :: Managed(w.objects[0].status, kind) == {}
  }

  /**
   Existing remote memberships that are not claimed remain untouched: whatever happened before,
   and however stale its reads, a pass takes out of a group only members that some membership
   had claimed for it.
   */
  lemma NoPassRemovesUnclaimed(w0: World, actions: seq<Action>, i: PassInput, id: string, kind: Kind, x: string)
    requires Fresh(w0) && Runs(w0, actions)
    requires Enabled(Run(w0, actions), DoPass(i))
    requires var w := Run(w0, actions);
             x in Members(w.remote, id, kind) && x !in Members(Step(w, DoPass(i)).remote, id, kind)
    ensures EverClaimed(Run(w0, actions), kind, x)
  {
    hide PassOf, FaithfulReplies, Claimed, Runs;
    var w := Run(w0, actions);
    RunKeepsManagedClaimed(w0, actions);
    PassEffectOnRemote(w, i, id, kind);
    assert x in Managed(w.objects[i.snapshot].status, kind);
  }

  // ---------------------------------------------------------------------------
  // Exactly what a completed pass leaves
  // ---------------------------------------------------------------------------

  /** The pass works on the newest versions. */
  predicate UpToDate(w: World, i: PassInput)
    requires Shaped(w)
  {
    i.snapshot + 1 == |w.objects| && i.view + 1 == |w.views|
  }

  function CurrentView(w: World): View
    requires Shaped(w)
  {
    w.views[|w.views| - 1]
  }

  /** The pass left OpenBao holding the members it wanted, whether or not it had to write them. */
  predicate Wrote(w: World, i: PassInput)
    requires Shaped(w) && Enabled(w, DoPass(i))
  {
    PassOf(w, i).reached && (PassOf(w, i).updates == 1 ==> i.update.TookEffect())
  }

  /**
   Who is in a group after any pass, whatever versions it read and wherever it stopped: if the pass
   brought this group to its desired members, those it claims and those it found and did not take
   for managed; otherwise those that were in.
   */
  lemma PassMembers(w: World, i: PassInput, id: string, kind: Kind, x: string)
    requires Shaped(w) && Enabled(w, DoPass(i))
    ensures x in Members(Step(w, DoPass(i)).remote, id, kind) <==>
              if Wrote(w, i) && PassOf(w, i).target == id
              then Claimed(w.name, w.views[i.view], kind, x)
                   || (x in Members(w.remote, id, kind) && x !in Managed(w.objects[i.snapshot].status, kind))
              else x in Members(w.remote, id, kind)
  {
    hide Pass, Desired, GroupMatches, Normalize, FaithfulReplies, Resolve, Appends, ClaimIDs, Claimed;
    PassSummary(w, i);
    var p := PassOf(w, i);
    if p.reached {
      var obj := w.objects[i.snapshot];
      var status := obj.status.(id := p.target);
      ResolveIsExact(w.name, obj.spec.typ, w.views[i.view]);
      ClaimIDsElems(p.claims, kind);
      DesiredMembers(w.name, obj.spec, status, p.base[p.target], p.claims, kind);
      if p.updates == 0 {
        MatchingMembers(Desired(w.name, obj.spec, status, Some(p.base[p.target]), p.claims), p.base[p.target], kind);
      }
    }
  }

  /** The same for a pass on the newest versions, and what it has recorded as managed. */
  lemma WrittenMembers(w: World, i: PassInput, kind: Kind, x: string)
    requires Shaped(w) && Enabled(w, DoPass(i)) && UpToDate(w, i) && Wrote(w, i)
    ensures var p := PassOf(w, i);
            x in Members(p.remote, p.target, kind) <==>
              || Claimed(w.name, CurrentView(w), kind, x)
              || (x in Members(w.remote, p.target, kind) && x !in Managed(Newest(w).status, kind))
    ensures PassOf(w, i).recorded ==>
              (x in Managed(Newest(Step(w, DoPass(i))).status, kind) <==> Claimed(w.name, CurrentView(w), kind, x))
  {
    hide PassOf, FaithfulReplies, Resolve, ClaimIDs, Claimed, Members, Managed;
    PassMembers(w, i, PassOf(w, i).target, kind, x);
    PassEffectOnManaged(w, i, kind);
    ReachedClaims(w, i);
    ResolveIsExact(w.name, Newest(w).spec.typ, CurrentView(w));
    ClaimIDsElems(PassOf(w, i).claims, kind);
  }

  /** No pass in the list records; claim changes, spec edits, outside edits and losses are all allowed. */
  predicate NothingRecorded(w: World, actions: seq<Action>)
    requires Shaped(w) && Runs(w, actions)
    decreases |actions|
  {
    actions == [] ||
    (&& (actions[0].DoPass? ==> !PassOf(w, actions[0].input).recorded)
     && NothingRecorded(Step(w, actions[0]), actions[1..]))
  }

  lemma {:induction false} NothingRecordedKeepsManaged(w: World, actions: seq<Action>, kind: Kind)
    requires Shaped(w) && Runs(w, actions) && NothingRecorded(w, actions)
    ensures Managed(Newest(Run(w, actions)).status, kind) == Managed(Newest(w).status, kind)
    decreases |actions|
  {
    hide PassOf, FaithfulReplies, Managed;
    if actions != [] {
      var a := actions[0];
      if a.DoPass? {
        PassEffectOnManaged(w, a.input, kind);
      }
      NothingRecordedKeepsManaged(Step(w, a), actions[1..], kind);
    }
  }

  /**
   Withdrawal takes effect. Between two recorded passes anything may happen, including passes
   that stop anywhere, outside edits and loss of the group: the second pass leaves exactly its
   own claims plus the members it found that the first pass had not claimed.
   So a member stays while any one of several overlapping claims remains, and is gone after the
   pass that follows its last withdrawal even if someone put it back by hand in between.
   */
  lemma WithdrawalTakesEffect(w: World, first: PassInput, between: seq<Action>, second: PassInput, kind: Kind, x: string)
    requires Shaped(w) && Enabled(w, DoPass(first)) && UpToDate(w, first) && Wrote(w, first)
    requires PassOf(w, first).recorded
    requires var w1 := Step(w, DoPass(first)); Runs(w1, between) && NothingRecorded(w1, between)
    requires var w2 := Run(Step(w, DoPass(first)), between);
             Enabled(w2, DoPass(second)) && UpToDate(w2, second) && Wrote(w2, second)
    ensures var w2 := Run(Step(w, DoPass(first)), between);
            var p := PassOf(w2, second);
            x in Members(p.remote, p.target, kind) <==>
              || (exists m :: m in CurrentView(w2).memberships && Claims(w.name, CurrentView(w2), m, kind, x))
              || (x in Members(w2.remote, p.target, kind) && !Claimed(w.name, CurrentView(w), kind, x))
  {
    var w1 := Step(w, DoPass(first));
    WrittenMembers(w, first, kind, x);
    NothingRecordedKeepsManaged(w1, between, kind);
    WrittenMembers(Run(w1, between), second, kind, x);
  }
}
