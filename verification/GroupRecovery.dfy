/**
 What passes that stop between the group update and the status write leave behind: where every
 member of a group comes from, and when the next pass picks up where the stopped one left off.
 */
module GroupRecovery {
  import opened Kube
  import opened StringLists
  import opened Conditions
  import opened Group
  import opened GroupRuns

  // ---------------------------------------------------------------------------
  // Where a member comes from
  // ---------------------------------------------------------------------------

  /** The action leaves `x` in the group because of a claim or of an outside write. */
  predicate Puts(w: World, a: Action, id: string, kind: Kind, x: string)
    requires Shaped(w) && Enabled(w, a)
  {
    match a
    case DoPass(i) => Wrote(w, i) && PassOf(w, i).target == id && Claimed(w.name, w.views[i.view], kind, x)
    case OutsideWrite(g, group) => g == id && x in MemberList(group, kind)
    case _ => false
  }

  /** The action takes `x` out: a pass that reads it as managed and not claimed, or an outside change. */
  predicate Takes(w: World, a: Action, id: string, kind: Kind, x: string)
    requires Shaped(w) && Enabled(w, a)
  {
    match a
    case DoPass(i) =>
      Wrote(w, i) && PassOf(w, i).target == id && !Claimed(w.name, w.views[i.view], kind, x)
      && x in ManagedList(w.objects[i.snapshot].status, kind)
    case OutsideWrite(g, group) => g == id && x !in MemberList(group, kind)
    case OutsideDelete(g) => g == id
    case _ => false
  }

  lemma StepMembers(w: World, a: Action, id: string, kind: Kind, x: string)
    requires Shaped(w) && Enabled(w, a)
    ensures x in Members(Step(w, a).remote, id, kind) <==>
              Puts(w, a, id, kind, x) || (x in Members(w.remote, id, kind) && !Takes(w, a, id, kind, x))
  {
    hide PassOf, FaithfulReplies, Claimed;
    if a.DoPass? { PassMembers(w, a.input, id, kind, x); }
  }

  /** The world before action `k`. */
  function StateAt(w: World, actions: seq<Action>, k: nat): (w': World)
    requires Shaped(w) && Runs(w, actions) && k <= |actions|
    ensures Shaped(w') && (k < |actions| ==> Enabled(w', actions[k]))
    decreases k
  {
    if k == 0 then w else StateAt(Step(w, actions[0]), actions[1..], k - 1)
  }

  /** `x` was there at the start (`k` is 0), or action `k - 1` put it there. */
  ghost predicate PutAt(w: World, actions: seq<Action>, k: nat, id: string, kind: Kind, x: string)
    requires Shaped(w) && Runs(w, actions) && k <= |actions|
  {
    if k == 0 then x in Members(w.remote, id, kind)
    else Puts(StateAt(w, actions, k - 1), actions[k - 1], id, kind, x)
  }

  ghost predicate KeptFrom(w: World, actions: seq<Action>, k: nat, id: string, kind: Kind, x: string)
    requires Shaped(w) && Runs(w, actions) && k <= |actions|
  {
    forall j: nat :: k <= j < |actions| ==> !Takes(StateAt(w, actions, j), actions[j], id, kind, x)
  }

  /**
   The history of every member, over every run with stale reads, stops, outside edits and losses:
   `x` is in the group at the end if and only if something put it there, or it was there at the
   start, and nothing after that took it out.
   */
  lemma {:induction false} MembersExactly(w: World, actions: seq<Action>, id: string, kind: Kind, x: string)
    requires Shaped(w) && Runs(w, actions)
    ensures x in Members(Run(w, actions).remote, id, kind) <==>
              exists k: nat :: k <= |actions| && PutAt(w, actions, k, id, kind, x) && KeptFrom(w, actions, k, id, kind, x)
    decreases |actions|
  {
    hide Step, Enabled, Puts, Takes, Members;
    if actions == [] {
      assert PutAt(w, actions, 0, id, kind, x) <==> x in Members(w.remote, id, kind);
      assert KeptFrom(w, actions, 0, id, kind, x);
    } else {
      var w1, rest := Step(w, actions[0]), actions[1..];
      StepMembers(w, actions[0], id, kind, x);
      MembersExactly(w1, rest, id, kind, x);
      assert StateAt(w, actions, 0) == w;
      forall k: nat | k <= |rest|
        ensures KeptFrom(w, actions, k + 1, id, kind, x) <==> KeptFrom(w1, rest, k, id, kind, x)
        ensures k > 0 ==> (PutAt(w, actions, k + 1, id, kind, x) <==> PutAt(w1, rest, k, id, kind, x))
      {
        KeptFromShifts(w, actions, k, id, kind, x);
      }
      assert PutAt(w, actions, 1, id, kind, x) <==> Puts(w, actions[0], id, kind, x);
      assert KeptFrom(w, actions, 0, id, kind, x) <==>
             !Takes(w, actions[0], id, kind, x) && KeptFrom(w1, rest, 0, id, kind, x) by { KeptFromStart(w, actions, id, kind, x); }
      if k: nat :| k <= |actions| && PutAt(w, actions, k, id, kind, x) && KeptFrom(w, actions, k, id, kind, x) {
        assert k > 1 ==> PutAt(w1, rest, k - 1, id, kind, x) && KeptFrom(w1, rest, k - 1, id, kind, x);
        assert k <= 1 ==> PutAt(w1, rest, 0, id, kind, x) && KeptFrom(w1, rest, 0, id, kind, x);
      }
      if k: nat :| k <= |rest| && PutAt(w1, rest, k, id, kind, x) && KeptFrom(w1, rest, k, id, kind, x) {
        if k > 0 {
          assert PutAt(w, actions, k + 1, id, kind, x) && KeptFrom(w, actions, k + 1, id, kind, x);
        } else if Puts(w, actions[0], id, kind, x) {
          assert PutAt(w, actions, 1, id, kind, x) && KeptFrom(w, actions, 1, id, kind, x);
        } else {
          assert PutAt(w, actions, 0, id, kind, x) && KeptFrom(w, actions, 0, id, kind, x);
        }
      }
    }
  }

  lemma KeptFromShifts(w: World, actions: seq<Action>, k: nat, id: string, kind: Kind, x: string)
    requires Shaped(w) && Runs(w, actions) && k < |actions|
    ensures KeptFrom(w, actions, k + 1, id, kind, x) <==> KeptFrom(Step(w, actions[0]), actions[1..], k, id, kind, x)
    ensures k > 0 ==> (PutAt(w, actions, k + 1, id, kind, x) <==> PutAt(Step(w, actions[0]), actions[1..], k, id, kind, x))
  {
    hide Step, Enabled, Puts, Takes, Members;
    var w1, rest := Step(w, actions[0]), actions[1..];
    forall j: nat | j < |rest|
      ensures StateAt(w, actions, j + 1) == StateAt(w1, rest, j) && actions[j + 1] == rest[j]
    {
    }
    if KeptFrom(w1, rest, k, id, kind, x) {
      forall j: nat | k + 1 <= j < |actions| ensures !Takes(StateAt(w, actions, j), actions[j], id, kind, x) {
        assert !Takes(StateAt(w1, rest, j - 1), rest[j - 1], id, kind, x);
      }
    }
    if KeptFrom(w, actions, k + 1, id, kind, x) {
      forall j: nat | k <= j < |rest| ensures !Takes(StateAt(w1, rest, j), rest[j], id, kind, x) {
        assert !Takes(StateAt(w, actions, j + 1), actions[j + 1], id, kind, x);
      }
    }
  }

  lemma KeptFromStart(w: World, actions: seq<Action>, id: string, kind: Kind, x: string)
    requires Shaped(w) && Runs(w, actions) && actions != []
    ensures KeptFrom(w, actions, 0, id, kind, x) <==>
              !Takes(w, actions[0], id, kind, x) && KeptFrom(Step(w, actions[0]), actions[1..], 0, id, kind, x)
  {
    hide Step, Enabled, Puts, Takes, Members;
    KeptFromShifts(w, actions, 0, id, kind, x);
    assert StateAt(w, actions, 0) == w;
    if KeptFrom(w, actions, 0, id, kind, x) {
      assert !Takes(StateAt(w, actions, 0), actions[0], id, kind, x);
    }
  }

  // ---------------------------------------------------------------------------
  // Passes that stop before the record
  // ---------------------------------------------------------------------------

  /** The version read carries the managed members of the newest one: nothing was recorded since. */
  ghost predicate SeesManaged(w: World, i: PassInput)
    requires Shaped(w) && Enabled(w, DoPass(i))
  {
    forall kind :: Managed(w.objects[i.snapshot].status, kind) == Managed(Newest(w).status, kind)
  }

  /** Claim changes, spec edits and passes that do not record; nobody else edits OpenBao. */
  ghost predicate Interrupted(w: World, actions: seq<Action>)
    requires Shaped(w) && Runs(w, actions)
    decreases |actions|
  {
    actions == [] ||
    (&& !actions[0].OutsideWrite? && !actions[0].OutsideDelete?
     && (actions[0].DoPass? ==> SeesManaged(w, actions[0].input) && !PassOf(w, actions[0].input).recorded)
     && Interrupted(Step(w, actions[0]), actions[1..]))
  }

  /** One of the passes put `x` into the group. */
  predicate PutBySome(w: World, actions: seq<Action>, id: string, kind: Kind, x: string)
    requires Shaped(w) && Runs(w, actions)
    decreases |actions|
  {
    actions != [] && (Puts(w, actions[0], id, kind, x) || PutBySome(Step(w, actions[0]), actions[1..], id, kind, x))
  }

  lemma {:induction false} InterruptedMembers(w: World, actions: seq<Action>, id: string, kind: Kind, x: string)
    requires Shaped(w) && Runs(w, actions) && Interrupted(w, actions)
    ensures var w' := Run(w, actions);
            && Managed(Newest(w').status, kind) == Managed(Newest(w).status, kind)
            && (x !in Managed(Newest(w).status, kind) ==>
                  (x in Members(w'.remote, id, kind) <==>
                     x in Members(w.remote, id, kind) || PutBySome(w, actions, id, kind, x)))
    decreases |actions|
  {
    hide PassOf, FaithfulReplies, Members, Claimed, Wrote;
    if actions != [] {
      var a := actions[0];
      StepMembers(w, a, id, kind, x);
      if a.DoPass? { PassEffectOnManaged(w, a.input, kind); }
      InterruptedMembers(Step(w, a), actions[1..], id, kind, x);
    }
  }

  /**
   Exactly which members an interruption leaves behind, for a group bound by ID, adopted or just
   created. After any number of passes that did not record, with claims and spec changing in
   between, the next pass that writes leaves a member `x` it does not claim in its group if and
   only if `x` was not managed, and was either there at the start or put there by an interrupted
   pass. The passes may read older versions as long as nothing was recorded since.
   */
  lemma LeftBehindExactly(w: World, actions: seq<Action>, last: PassInput, kind: Kind, x: string)
    requires Shaped(w) && Runs(w, actions) && Interrupted(w, actions)
    requires var w' := Run(w, actions); Enabled(w', DoPass(last)) && SeesManaged(w', last) && Wrote(w', last)
    requires !Claimed(w.name, Run(w, actions).views[last.view], kind, x)
    ensures var p := PassOf(Run(w, actions), last);
            x in Members(p.remote, p.target, kind) <==>
              && x !in Managed(Newest(w).status, kind)
              && (x in Members(w.remote, p.target, kind) || PutBySome(w, actions, p.target, kind, x))
  {
    hide PassOf, FaithfulReplies, Claimed, Interrupted, Runs, Wrote, PutBySome, Members, Managed;
    var w' := Run(w, actions);
    var id := PassOf(w', last).target;
    InterruptedMembers(w, actions, id, kind, x);
    PassMembers(w', last, id, kind, x);
  }

  // ---------------------------------------------------------------------------
  // Crash recovery with unchanged claims
  // ---------------------------------------------------------------------------

  lemma FoldsToItself(typ: GroupType)
    ensures FoldsTo(TypeName(typ), TypeName(typ))
  {
  }

  /** Taking away and adding the same sets once more changes nothing, so the rewritten group matches. */
  lemma DesiredIsStable(name: string, spec: GroupSpec, status: GroupStatus, again: GroupStatus, observed: RemoteGroup, claims: seq<Claim>)
    requires forall kind :: ManagedList(again, kind) == ManagedList(status, kind)
    ensures var d := Desired(name, spec, status, Some(observed), claims);
            Desired(name, spec, again, Some(d), claims) == d && GroupMatches(d, d)
  {
    var d := Desired(name, spec, status, Some(observed), claims);
    var d' := Desired(name, spec, again, Some(d), claims);
    assert ManagedList(again, Entity) == ManagedList(status, Entity);
    assert ManagedList(again, Subgroup) == ManagedList(status, Subgroup);
    forall kind ensures MemberList(d', kind) == MemberList(d, kind) {
      DesiredMembers(name, spec, status, observed, claims, kind);
      DesiredMembers(name, spec, again, d, claims, kind);
      var before := Subtract(MemberList(observed, kind), ManagedList(status, kind)) + ClaimIDs(claims, kind);
      var after := Subtract(MemberList(d, kind), ManagedList(again, kind)) + ClaimIDs(claims, kind);
      NormalizeCanonical(before);
      NormalizeCanonical(after);
      AscendingUnique(Normalize(before), Normalize(after));
    }
    assert d'.entities == MemberList(d', Entity) && d.entities == MemberList(d, Entity);
    assert d'.groups == MemberList(d', Subgroup) && d.groups == MemberList(d, Subgroup);
    NormalizeIdempotent(spec.policies);
    NormalizeIdempotent(Subtract(observed.entities, status.managedEntities) + ClaimIDs(claims, Entity));
    NormalizeIdempotent(Subtract(observed.groups, status.managedGroups) + ClaimIDs(claims, Subgroup));
    FoldsToItself(spec.typ);
  }

  /** The desired group depends on the status only through the managed lists. */
  lemma SameDesired(name: string, spec: GroupSpec, s: GroupStatus, t: GroupStatus, observed: RemoteGroup, claims: seq<Claim>)
    ensures s.managedEntities == t.managedEntities && s.managedGroups == t.managedGroups ==>
              Desired(name, spec, s, Some(observed), claims) == Desired(name, spec, t, Some(observed), claims)
  {
  }

  function AcquireOf(w: World, i: PassInput): Acquisition
    requires Shaped(w) && Enabled(w, DoPass(i))
  {
    Acquire(w.name, w.objects[i.snapshot].spec, w.objects[i.snapshot].status, w.remote, i)
  }

  function ConvergeOf(w: World, i: PassInput): PassResult
    requires Shaped(w) && Enabled(w, DoPass(i)) && AcquireOf(w, i).Bound?
  {
    var a := AcquireOf(w, i);
    Converge(w.name, a.remote, w.objects, w.views[i.view], i, w.objects[i.snapshot].status.(id := a.id), a.observed)
  }

  /** A pass is `acquire`, then the rest for the group it bound, or a failure that stores at most the ID. */
  lemma PassSplits(w: World, i: PassInput)
    requires Shaped(w) && Enabled(w, DoPass(i))
    ensures var p := PassOf(w, i);
            var a := AcquireOf(w, i);
            if i.dependency.None? && a.Bound? then p == ConvergeOf(w, i)
            else
              && !p.reached && !p.recorded && !p.completed && p.updates == 0
              && p.remote == (if i.dependency.Some? then w.remote else a.remote)
              && Appends(w.objects, i.snapshot, p.objects, if i.dependency.None? && a.NotBound? then a.id else w.objects[i.snapshot].status.id,
                         w.objects[i.snapshot].status.managedEntities, w.objects[i.snapshot].status.managedGroups)
  {
    hide Acquire, Converge, FaithfulReplies, Failed;
    var obj := w.objects[i.snapshot];
    var a := AcquireOf(w, i);
    if i.dependency.Some? {
      FailedFacts(w.remote, w.objects, i, obj.status, Stalled(obj.generation, "DependencyNotReady", i.dependency, i.clock, i.clock));
    } else if a.NotBound? {
      FailedFacts(a.remote, w.objects, i, obj.status.(id := a.id), Error(obj.generation, "GroupAcquireFailed", Some(a.message), i.clock));
    }
  }

  /** The newest version records the ID of a group that exists. */
  predicate Registered(w: World)
    requires Shaped(w)
  {
    Newest(w).status.id != "" && Newest(w).status.id in w.remote
  }

  /** The next pass can find the group again. */
  predicate Recoverable(w: World)
    requires Shaped(w)
  {
    Registered(w) || Newest(w).spec.creation.AllowsAdoption()
  }

  /** OpenBao keeps group names unique; only passes that bind by name rely on it. */
  ghost predicate NamedOnce(w: World) {
    forall a, b :: a in w.remote && b in w.remote && w.remote[a].name == w.name && w.remote[b].name == w.name ==> a == b
  }

  /** OpenBao already holds, in group `id`, what a pass on the newest versions would ask for. */
  ghost predicate Holding(w: World, id: string, claims: seq<Claim>)
    requires Shaped(w)
  {
    && id != "" && id in w.remote && w.remote[id].name == w.name
    && (Registered(w) ==> Newest(w).status.id == id)
    && (!Registered(w) ==> forall g :: g in w.remote && w.remote[g].name == w.name ==> g == id)
    && Resolve(w.name, Newest(w).spec.typ, CurrentView(w)) == Resolved(claims)
    && GroupMatches(Desired(w.name, Newest(w).spec, Newest(w).status, Some(w.remote[id]), claims), w.remote[id])
  }

  /** The calls of the pass up to the claims succeed. */
  predicate CallsSucceed(i: PassInput) {
    i.dependency.None? && i.getByID.Fine? && i.getByName.Fine? && i.nameHasID && i.listing.Fine?
  }

  /** `acquire` when the group exists already: it creates nothing and binds to it, if it may. */
  lemma HoldingAcquire(w: World, i: PassInput, id: string, claims: seq<Claim>)
    requires Shaped(w) && Holding(w, id, claims) && Enabled(w, DoPass(i)) && UpToDate(w, i)
    ensures var a := Acquire(w.name, Newest(w).spec, Newest(w).status, w.remote, i);
            && a.remote == w.remote
            && (a.Bound? ==> a.id == id && a.observed == w.remote[id] && Recoverable(w))
            && (a.NotBound? ==> if Registered(w) then a.id == id else a.id == "" || a.id == Newest(w).status.id)
            && (CallsSucceed(i) ==> (a.Bound? <==> Recoverable(w)))
  {
    hide Desired, GroupMatches, Resolve;
    if !Registered(w) {
      assert i.nameHit.Some? && i.nameHit.value == id;
    }
  }

  /** A bound pass over a group that holds what is asked for. */
  lemma HoldingConverge(w: World, i: PassInput, id: string, claims: seq<Claim>)
    requires Shaped(w) && Holding(w, id, claims) && Enabled(w, DoPass(i)) && UpToDate(w, i)
    ensures var p := Converge(w.name, w.remote, w.objects, CurrentView(w), i, Newest(w).status.(id := id), w.remote[id]);
            && p.base == w.remote && p.remote == w.remote && p.updates == 0
            && (p.reached ==> p.target == id && p.claims == claims)
            && (i.listing.Fine? ==> p.reached)
            && (p.completed ==> p.recorded) && (p.recorded ==> p.reached)
            && (i.listing.Fine? && i.statusWrite.Fine? ==> p.recorded && p.completed)
            && (!p.recorded ==> Appends(w.objects, i.snapshot, p.objects, id, Newest(w).status.managedEntities, Newest(w).status.managedGroups))
  {
    var status := Newest(w).status.(id := id);
    ConvergeHasFacts(w.name, w.remote, w.objects, CurrentView(w), i, status, w.remote[id]);
    hide Conditions.Apply, Desired, GroupMatches, Resolve, Failed, Normalize, ClaimIDs;
    SameDesired(w.name, Newest(w).spec, status, Newest(w).status, w.remote[id], claims);
  }

  lemma HoldingPass(w: World, i: PassInput, id: string, claims: seq<Claim>)
    requires Shaped(w) && Holding(w, id, claims) && Enabled(w, DoPass(i)) && UpToDate(w, i)
    ensures var p := PassOf(w, i);
            && p.remote == w.remote && p.updates == 0
            && (p.reached ==> p.target == id && p.claims == claims && Recoverable(w))
            && (CallsSucceed(i) ==> (p.reached <==> Recoverable(w)))
            && (CallsSucceed(i) && i.statusWrite.Fine? ==> (p.completed <==> Recoverable(w)) && (p.recorded <==> Recoverable(w)))
            && (p.completed ==> p.recorded) && (p.recorded ==> p.reached)
    ensures !PassOf(w, i).recorded ==> HoldingKept(w, Step(w, DoPass(i)), id)
  {
    hide PassOf, Acquire, Converge, Desired, GroupMatches, Resolve, FaithfulReplies;
    HoldingAcquire(w, i, id, claims);
    HoldingConverge(w, i, id, claims);
    PassSplits(w, i);
  }

  /** A pass that did not record kept server, view, spec, managed lists, and the way to the group. */
  ghost predicate HoldingKept(w: World, w': World, id: string)
    requires Shaped(w)
  {
    && Shaped(w') && w'.name == w.name && w'.remote == w.remote && w'.views == w.views
    && Newest(w').spec == Newest(w).spec
    && Newest(w').status.managedEntities == Newest(w).status.managedEntities
    && Newest(w').status.managedGroups == Newest(w).status.managedGroups
    && (Registered(w) ==> Newest(w').status.id == id)
    && (!Registered(w) ==> Newest(w').status.id in {"", id, Newest(w).status.id})
    && (!Recoverable(w) ==> !Registered(w'))
  }

  lemma HoldingStays(w: World, w': World, id: string, claims: seq<Claim>)
    requires Shaped(w) && Holding(w, id, claims) && HoldingKept(w, w', id)
    ensures Holding(w', id, claims) && (Recoverable(w') <==> Recoverable(w))
  {
    hide Desired, GroupMatches, Resolve;
    SameDesired(w.name, Newest(w).spec, Newest(w).status, Newest(w').status, w.remote[id], claims);
  }

  /** Passes on the newest versions that fail or stop anywhere before the record. */
  predicate Unfinished(w: World, inputs: seq<PassInput>)
    requires Shaped(w)
    decreases |inputs|
  {
    inputs == [] ||
    (&& Enabled(w, DoPass(inputs[0])) && UpToDate(w, inputs[0]) && !PassOf(w, inputs[0]).recorded
     && Unfinished(Step(w, DoPass(inputs[0])), inputs[1..]))
  }

  function AfterPasses(w: World, inputs: seq<PassInput>): (w': World)
    requires Shaped(w) && Unfinished(w, inputs)
    ensures Shaped(w') && w'.name == w.name
    decreases |inputs|
  {
    if inputs == [] then w else AfterPasses(Step(w, DoPass(inputs[0])), inputs[1..])
  }

  /** `UpdateGroup` calls sent by the passes. */
  function UpdatesSent(w: World, inputs: seq<PassInput>): nat
    requires Shaped(w) && Unfinished(w, inputs)
    decreases |inputs|
  {
    if inputs == [] then 0 else PassOf(w, inputs[0]).updates + UpdatesSent(Step(w, DoPass(inputs[0])), inputs[1..])
  }

  lemma {:induction false} HoldingPasses(w: World, inputs: seq<PassInput>, id: string, claims: seq<Claim>)
    requires Shaped(w) && Holding(w, id, claims) && Unfinished(w, inputs)
    ensures var w' := AfterPasses(w, inputs);
            && UpdatesSent(w, inputs) == 0 && w'.remote == w.remote
            && Holding(w', id, claims) && (Recoverable(w') <==> Recoverable(w))
    decreases |inputs|
  {
    hide PassOf, FaithfulReplies, Holding, HoldingKept, Recoverable;
    if inputs != [] {
      HoldingPass(w, inputs[0], id, claims);
      HoldingStays(w, Step(w, DoPass(inputs[0])), id, claims);
      HoldingPasses(Step(w, DoPass(inputs[0])), inputs[1..], id, claims);
    }
  }

  /** `acquire` without a recorded group adopts the one of that name or creates one. */
  lemma UnboundAcquire(w: World, i: PassInput)
    requires Shaped(w) && Enabled(w, DoPass(i)) && UpToDate(w, i) && !Registered(w)
    ensures var a := Acquire(w.name, Newest(w).spec, Newest(w).status, w.remote, i);
            a.Bound? ==>
              && a.observed.name == w.name
              && if i.nameHit.Some? then a.id == i.nameHit.value && a.remote == w.remote && Newest(w).spec.creation.AllowsAdoption()
                 else a.id == i.newID && a.remote == w.remote[i.newID := a.observed]
  {
    hide GroupMatches, Resolve, Normalize;
  }

  /** A stop after the group was written: the pass read the newest versions and did not record. */
  predicate StoppedAfterWrite(w: World, i: PassInput)
    requires Shaped(w)
  {
    Enabled(w, DoPass(i)) && UpToDate(w, i) && Wrote(w, i) && !PassOf(w, i).recorded
  }

  /** After a pass that wrote, its target alone carries the name, unless the pass was bound by ID. */
  lemma WriteNames(w: World, i: PassInput)
    requires Shaped(w) && Enabled(w, DoPass(i)) && UpToDate(w, i) && Wrote(w, i) && (Registered(w) || NamedOnce(w))
    ensures var p := PassOf(w, i);
            var a := AcquireOf(w, i);
            && i.dependency.None? && a.Bound? && p == ConvergeOf(w, i) && p.base == a.remote && p.target == a.id
            && a.id in a.remote && a.remote[a.id] == a.observed && a.id != ""
            && (Registered(w) ==> a.id == Newest(w).status.id)
            && w.remote.Keys <= a.remote.Keys <= w.remote.Keys + {a.id}
            && (!Registered(w) ==>
                  && (forall g :: g in a.remote && a.remote[g].name == w.name ==> g == a.id)
                  && (a.id in w.remote ==> Newest(w).spec.creation.AllowsAdoption()))
  {
    hide PassOf, Acquire, Converge, Desired, GroupMatches, Normalize, Resolve, ClaimIDs;
    PassSplits(w, i);
    AcquireHasFacts(w.name, Newest(w).spec, Newest(w).status, w.remote, i);
    var a := AcquireOf(w, i);
    ConvergeHasFacts(w.name, a.remote, w.objects, CurrentView(w), i, Newest(w).status.(id := a.id), a.observed);
    if !Registered(w) { UnboundAcquire(w, i); }
  }

  lemma StopHolds(w: World, i: PassInput)
    requires Shaped(w) && StoppedAfterWrite(w, i) && (Registered(w) || NamedOnce(w))
    ensures var w' := Step(w, DoPass(i));
            && Holding(w', PassOf(w, i).target, PassOf(w, i).claims)
            && (Recoverable(w') <==> Recoverable(w) || Newest(w').status.id == PassOf(w, i).target)
  {
    hide PassOf, Acquire, Converge, Desired, GroupMatches, Normalize, Resolve, ClaimIDs, FaithfulReplies, NamedOnce;
    WriteNames(w, i);
    var p := PassOf(w, i);
    var obj := Newest(w);
    var a := AcquireOf(w, i);
    var status := obj.status.(id := a.id);
    ConvergeHasFacts(w.name, a.remote, w.objects, CurrentView(w), i, status, a.observed);
    var w' := Step(w, DoPass(i));
    SameDesired(w.name, obj.spec, status, Newest(w').status, w'.remote[a.id], p.claims);
    DesiredIsStable(w.name, obj.spec, status, Newest(w').status, a.observed, p.claims);
    MatchingName(Desired(w.name, obj.spec, status, Some(a.observed), p.claims), a.observed);
    DesiredName(w.name, obj.spec, status, a.observed, p.claims);
  }

  lemma MatchingName(desired: RemoteGroup, current: RemoteGroup)
    ensures GroupMatches(desired, current) ==> current.name == desired.name
  {
  }

  lemma DesiredName(name: string, spec: GroupSpec, status: GroupStatus, observed: RemoteGroup, claims: seq<Claim>)
    ensures Desired(name, spec, status, Some(observed), claims).name == name
  {
  }

  /**
   Crash recovery from every start: the group recorded, adopted or created by the very pass that
   stops. However many passes then fail or stop anywhere, none sends `UpdateGroup` and the server
   stays as the stopped pass left it. A pass whose calls succeed completes if and only if the
   stored ID exists or the policy allows adoption, and then it records exactly the claims.
   */
  lemma CrashRecovery(w: World, first: PassInput, between: seq<PassInput>, last: PassInput)
    requires Shaped(w) && StoppedAfterWrite(w, first) && (Registered(w) || NamedOnce(w))
    requires Unfinished(Step(w, DoPass(first)), between)
    requires var w' := AfterPasses(Step(w, DoPass(first)), between); Enabled(w', DoPass(last)) && UpToDate(w', last)
    ensures var w1 := Step(w, DoPass(first));
            var w' := AfterPasses(w1, between);
            var p := PassOf(w', last);
            && UpdatesSent(w1, between) == 0 && p.updates == 0
            && w'.remote == w1.remote && p.remote == w1.remote
            && (CallsSucceed(last) && last.statusWrite.Fine? ==> (p.completed <==> Recoverable(w1)))
            && (p.completed ==> p.recorded)
            && (p.recorded ==>
                  forall kind, x :: x in Managed(Newest(Step(w', DoPass(last))).status, kind) <==>
                                    Claim(kind, x) in PassOf(w, first).claims)
    ensures var w1 := Step(w, DoPass(first));
            Recoverable(w1) <==> Recoverable(w) || Newest(w1).status.id == PassOf(w, first).target
  {
    var id, claims := PassOf(w, first).target, PassOf(w, first).claims;
    hide PassOf, FaithfulReplies, Holding, Recoverable, Managed, NamedOnce, StoppedAfterWrite;
    var w1 := Step(w, DoPass(first));
    StopHolds(w, first);
    HoldingPasses(w1, between, id, claims);
    var w' := AfterPasses(w1, between);
    HoldingPass(w', last, id, claims);
    if PassOf(w', last).recorded {
      forall kind, x ensures x in Managed(Newest(Step(w', DoPass(last))).status, kind) <==> Claim(kind, x) in claims {
        PassEffectOnManaged(w', last, kind);
        ClaimIDsElems(claims, kind);
      }
    }
  }

  /** A stopped pass leaves its group with the members that a clean one would have left. */
  lemma StoppedAsClean(w: World, stopped: PassInput, clean: PassInput, kind: Kind, x: string)
    requires Shaped(w) && Enabled(w, DoPass(stopped)) && UpToDate(w, stopped) && Wrote(w, stopped)
    requires Enabled(w, DoPass(clean)) && UpToDate(w, clean) && Wrote(w, clean)
    requires Registered(w) || NamedOnce(w)
    ensures x in Members(PassOf(w, stopped).remote, PassOf(w, stopped).target, kind) <==>
            x in Members(PassOf(w, clean).remote, PassOf(w, clean).target, kind)
  {
    hide PassOf, Acquire, Claimed, Managed, Wrote, ConvergeOf;
    WriteNames(w, stopped);
    WriteNames(w, clean);
    PassMembers(w, stopped, PassOf(w, stopped).target, kind, x);
    PassMembers(w, clean, PassOf(w, clean).target, kind, x);
    if !Registered(w) {
      UnboundAcquire(w, stopped);
      UnboundAcquire(w, clean);
    }
  }

  // ---------------------------------------------------------------------------
  // Stuck for ever
  // ---------------------------------------------------------------------------

  /** No stored version records an existing group, none may adopt, and the name is taken. */
  ghost predicate GroupStuck(w: World) {
    && Shaped(w)
    && (exists g :: g in w.remote && w.remote[g].name == w.name)
    && forall k :: 0 <= k < |w.objects| ==>
         && (w.objects[k].status.id == "" || w.objects[k].status.id !in w.remote)
         && !w.objects[k].spec.creation.AllowsAdoption()
  }

  /** Passes of any kind, claim changes, and spec edits that do not allow adoption. */
  predicate NoRescue(a: Action) {
    a.DoPass? || a.EditView? || (a.EditSpec? && !a.spec.creation.AllowsAdoption())
  }

  lemma StuckStep(w: World, a: Action)
    requires GroupStuck(w) && Enabled(w, a) && NoRescue(a)
    ensures GroupStuck(Step(w, a)) && Step(w, a).remote == w.remote
  {
    hide PassOf;
    if a.DoPass? { StuckPass(w, a.input); }
  }

  lemma StuckPass(w: World, i: PassInput)
    requires GroupStuck(w) && Enabled(w, DoPass(i))
    ensures GroupStuck(Step(w, DoPass(i)))
    ensures var p := PassOf(w, i); !p.reached && !p.completed && p.updates == 0 && p.remote == w.remote
  {
    hide PassOf, Converge, Acquire;
    PassSplits(w, i);
    StuckAcquire(w, i);
  }

  lemma StuckAcquire(w: World, i: PassInput)
    requires GroupStuck(w) && Enabled(w, DoPass(i))
    ensures var a := AcquireOf(w, i);
            !a.Bound? && a.remote == w.remote && (a.NotBound? ==> a.id == "" || a.id == w.objects[i.snapshot].status.id)
  {
    hide Desired;
    assert i.nameHit.Some?;
  }

  lemma {:induction false} StuckRun(w: World, actions: seq<Action>)
    requires Shaped(w) && GroupStuck(w) && Runs(w, actions) && forall k :: 0 <= k < |actions| ==> NoRescue(actions[k])
    ensures GroupStuck(Run(w, actions)) && Run(w, actions).remote == w.remote
    decreases |actions|
  {
    hide Step, Enabled, GroupStuck;
    if actions != [] {
      StuckStep(w, actions[0]);
      assert forall k :: 0 <= k < |actions[1..]| ==> actions[1..][k] == actions[k + 1];
      StuckRun(Step(w, actions[0]), actions[1..]);
    }
  }

  /** After any such run every further pass, however stale, fails and leaves OpenBao as it is. */
  lemma GroupStuckForEver(w: World, actions: seq<Action>, i: PassInput)
    requires Shaped(w) && GroupStuck(w) && Runs(w, actions) && forall k :: 0 <= k < |actions| ==> NoRescue(actions[k])
    requires Enabled(Run(w, actions), DoPass(i))
    ensures var p := PassOf(Run(w, actions), i); !p.completed && p.updates == 0 && p.remote == w.remote
  {
    hide PassOf, FaithfulReplies, GroupStuck, Runs;
    StuckRun(w, actions);
    StuckPass(Run(w, actions), i);
  }

  // ---------------------------------------------------------------------------
  // Two stops that lose something
  // ---------------------------------------------------------------------------

  /** Every call up to the status write succeeds and the group bound carries the right name. */
  predicate Undisturbed(w: World, i: PassInput)
    requires Shaped(w) && Enabled(w, DoPass(i))
  {
    && i.dependency.None? && AcquireOf(w, i).Bound? && AcquireOf(w, i).observed.name == w.name
    && i.listing.Fine? && i.update.Fine? && i.readBack.Fine?
    && Resolve(w.name, w.objects[i.snapshot].spec.typ, w.views[i.view]).Resolved?
  }

  /** An undisturbed pass writes; whether it records is decided by the status write alone. */
  lemma UndisturbedPassWrites(w: World, i: PassInput)
    requires Shaped(w) && Enabled(w, DoPass(i)) && UpToDate(w, i) && Undisturbed(w, i)
    ensures var p := PassOf(w, i);
            var a := AcquireOf(w, i);
            && Wrote(w, i) && p.target == a.id
            && (i.statusWrite.Fine? ==> p.recorded && p.completed)
            && (i.statusWrite.CrashBefore? ==> p.objects == w.objects)
            && p.remote.Keys == a.remote.Keys + {a.id} && p.remote[a.id].name == w.name
  {
    hide PassOf, Acquire, Desired, GroupMatches, Normalize, FaithfulReplies, Resolve, Observed;
    PassSplits(w, i);
    var a := AcquireOf(w, i);
    AcquireHasFacts(w.name, Newest(w).spec, Newest(w).status, w.remote, i);
    DesiredName(w.name, Newest(w).spec, Newest(w).status.(id := a.id), a.observed,
                Resolve(w.name, Newest(w).spec.typ, CurrentView(w)).claims);
  }

  const ENTITY_ID := "entity-1"

  function SampleMembership(): Membership {
    Membership("platform-payments", "platform", Some("payments"), None)
  }

  function SampleWorld(): World {
    World("platform",
          map["group-1" := RemoteGroup("platform", "internal", map[], [], [], [])],
          [GroupObject(1, GroupSpec(Internal, map[], [], Create), GroupStatus("group-1", [], [], []))],
          [View([SampleMembership()], map["payments" := Dependency(true, ENTITY_ID)], map[])])
  }

  function SampleInput(view: nat, write: Fault): PassInput {
    PassInput(0, view, None, Fine, Fine, Some("group-1"), true, Fine, "group-2", true, Fine, Fine, Fine, Fine, write, 7)
  }

  /** The crash leaves the member written and nothing recorded. */
  lemma SampleCrash()
    ensures var w := SampleWorld();
            var i := SampleInput(0, CrashBefore);
            && Enabled(w, DoPass(i))
            && var w' := Step(w, DoPass(i));
               && w'.name == "platform" && w'.objects == w.objects && w'.views == w.views
               && w'.remote.Keys == {"group-1"} && w'.remote["group-1"].name == "platform"
               && ENTITY_ID in Members(w'.remote, "group-1", Entity)
  {
    hide PassOf, Claimed;
    var w := SampleWorld();
    SampleFacts();
    SampleAcquires(w, SampleInput(0, CrashBefore));
    UndisturbedPassWrites(w, SampleInput(0, CrashBefore));
    WrittenMembers(w, SampleInput(0, CrashBefore), Entity, ENTITY_ID);
  }

  /**
   A crash between the two writes followed by the withdrawal of the claim strands the member: the
   next completed pass leaves it in the group, unmanaged and unclaimed.
   */
  lemma CrashThenWithdrawStrandsMember()
    ensures var w := SampleWorld();
            var crash, last := SampleInput(0, CrashBefore), SampleInput(1, Fine);
            var actions := [DoPass(crash), EditView(View([], map[], map[]))];
            && Shaped(w) && Runs(w, actions)
            && var w' := Run(w, actions);
               && Enabled(w', DoPass(last)) && PassOf(w', last).completed
               && ENTITY_ID in Members(PassOf(w', last).remote, "group-1", Entity)
               && ENTITY_ID !in Managed(Newest(Step(w', DoPass(last))).status, Entity)
               && !Claimed("platform", CurrentView(w'), Entity, ENTITY_ID)
  {
    hide PassOf, Claimed, Run, Runs, Members, Managed;
    var w := SampleWorld();
    var crash, last := SampleInput(0, CrashBefore), SampleInput(1, Fine);
    var v1 := View([], map[], map[]);
    SampleFacts();
    SampleCrash();
    var w2 := Step(Step(w, DoPass(crash)), EditView(v1));
    TwoSteps(w, DoPass(crash), EditView(v1));
    SampleAcquires(w2, last);
    UndisturbedPassWrites(w2, last);
    WrittenMembers(w2, last, Entity, ENTITY_ID);
  }

  lemma SampleAcquires(w: World, i: PassInput)
    requires Shaped(w) && Enabled(w, DoPass(i)) && i.getByID.Fine?
    requires w.objects[i.snapshot].status.id == "group-1" && "group-1" in w.remote
    ensures AcquireOf(w, i) == Bound("group-1", w.remote["group-1"], w.remote)
  {
  }

  /** A group whose first pass is about to create it, under the default policy. */
  function NewGroupWorld(): World {
    World("platform", map[], [GroupObject(1, GroupSpec(Internal, map[], [], Create), GroupStatus("", [], [], []))],
          SampleWorld().views)
  }

  function FirstInput(write: Fault): PassInput {
    SampleInput(0, write).(nameHit := None, newID := "group-1")
  }

  /**
   The first pass of a group creates it, writes its members and crashes before the status write:
   from then on, whatever passes follow, none completes and the members stay, unmanaged.
   */
  lemma FirstPassCrashSticks()
    ensures var w := NewGroupWorld();
            var i := FirstInput(CrashBefore);
            && Shaped(w) && Enabled(w, DoPass(i)) && StoppedAfterWrite(w, i) && NamedOnce(w)
            && !Recoverable(Step(w, DoPass(i))) && GroupStuck(Step(w, DoPass(i)))
            && ENTITY_ID in Members(Step(w, DoPass(i)).remote, "group-1", Entity)
            && Managed(Newest(Step(w, DoPass(i))).status, Entity) == {}
  {
    hide PassOf, Claimed, Acquire, Converge, Normalize;
    var w := NewGroupWorld();
    var i := FirstInput(CrashBefore);
    SampleFacts();
    assert AcquireOf(w, i).Bound? && AcquireOf(w, i).id == "group-1" && AcquireOf(w, i).observed.name == "platform"
           && AcquireOf(w, i).remote.Keys == {"group-1"} by { FirstAcquires(); }
    UndisturbedPassWrites(w, i);
    WrittenMembers(w, i, Entity, ENTITY_ID);
    PassEffectOnManaged(w, i, Entity);
  }

  lemma FirstAcquires()
    ensures var a := AcquireOf(NewGroupWorld(), FirstInput(CrashBefore));
            a.Bound? && a.id == "group-1" && a.observed.name == "platform" && a.remote.Keys == {"group-1"}
  {
  }

  lemma TwoSteps(w: World, a: Action, b: Action)
    requires Shaped(w) && Enabled(w, a) && Enabled(Step(w, a), b)
    ensures Runs(w, [a, b]) && Run(w, [a, b]) == Step(Step(w, a), b)
  {
    hide Step, Enabled;
    var actions := [a, b];
    assert actions[1..] == [b] && actions[1..][1..] == [];
    var w1 := Step(w, a);
    assert Runs(Step(w1, b), []) && Runs(w1, actions[1..]);
    assert Run(w1, actions[1..]) == Step(w1, b);
  }

  lemma SampleFacts()
    ensures var w := SampleWorld();
            && Resolve("platform", Internal, w.views[0]).Resolved?
            && Claimed("platform", w.views[0], Entity, ENTITY_ID)
            && Resolve("platform", Internal, View([], map[], map[])).Resolved?
            && !Claimed("platform", View([], map[], map[]), Entity, ENTITY_ID)
            && Managed(w.objects[0].status, Entity) == {}
  {
    var v := SampleWorld().views[0];
    var m := SampleMembership();
    assert ResolveOne("platform", v, m) == Resolved([Claim(Entity, ENTITY_ID)]);
    assert m in v.memberships && Claims("platform", v, m, Entity, ENTITY_ID);
    ResolveIsExact("platform", Internal, v);
    ResolveIsExact("platform", Internal, View([], map[], map[]));
  }
}
