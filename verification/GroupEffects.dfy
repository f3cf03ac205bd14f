/**
 What one pass over a group achieves, read off the spec, the memberships and the server: which
 memberships claim, when the group is found or created, when it is updated, what it then looks like,
 when the pass completes, and what the stored status says.
 */
module GroupEffects {
  import opened Kube
  import opened StringLists
  import opened Conditions
  import opened Group
  import opened GroupRuns
  import opened GroupRecovery
  import GroupReadiness

  // ---------------------------------------------------------------------------
  // Claims
  // ---------------------------------------------------------------------------

  /** The object is there, Ready, and bound to this ID. */
  predicate Available(deps: map<string, Dependency>, target: string, id: string) {
    target in deps && deps[target].ready && deps[target].id == id && id != ""
  }

  /** A membership claims the ID of its one target, if that is available; a group never claims itself. */
  lemma ResolvesExactly(name: string, v: View, m: Membership, kind: Kind, x: string)
    ensures ResolveOne(name, v, m) == Resolved([Claim(kind, x)]) <==>
              || (m.entityRef.Some? && m.memberGroupRef.None? && kind == Entity && Available(v.entities, m.entityRef.value, x))
              || (m.entityRef.None? && m.memberGroupRef.Some? && kind == Subgroup && m.memberGroupRef.value != name
                  && Available(v.groups, m.memberGroupRef.value, x))
  {
    assert forall c, d: Claim :: [c] == [d] ==> c == d by {
      forall c, d: Claim | [c] == [d] ensures c == d { assert [c][0] == [d][0]; }
    }
  }

  /** A membership that does not resolve waits for a dependency, or is wrong as it stands. */
  lemma UnresolvedExactly(name: string, v: View, m: Membership)
    ensures ResolveOne(name, v, m).Unresolved? && !ResolveOne(name, v, m).dependency <==>
              || (m.entityRef.Some? <==> m.memberGroupRef.Some?)
              || (m.entityRef.None? && m.memberGroupRef == Some(name))
    ensures ResolveOne(name, v, m).Resolved? <==> exists kind, x :: ResolveOne(name, v, m) == Resolved([Claim(kind, x)])
  {
    var r := ResolveOne(name, v, m);
    if r.Resolved? {
      assert r.claims == [r.claims[0]] && r.claims[0] == Claim(r.claims[0].kind, r.claims[0].id);
    }
  }

  /** The first membership in name order that does not resolve decides the failure. */
  lemma {:induction false} FirstUnresolvedDecides(name: string, v: View, ms: seq<Membership>) returns (k: nat)
    requires ResolveAll(name, v, ms).Unresolved?
    ensures k < |ms| && ResolveOne(name, v, ms[k]) == ResolveAll(name, v, ms)
    ensures forall j :: 0 <= j < k ==> ResolveOne(name, v, ms[j]).Resolved?
  {
    var front := ms[..|ms| - 1];
    if ResolveAll(name, v, front).Unresolved? {
      k := FirstUnresolvedDecides(name, v, front);
    } else {
      k := |ms| - 1;
      ResolveAllIsExact(name, v, front);
      forall j | 0 <= j < k ensures ResolveOne(name, v, ms[j]).Resolved? {
        assert front[j] in front;
      }
    }
  }

  // ---------------------------------------------------------------------------
  // Finding or creating the group
  // ---------------------------------------------------------------------------

  predicate NameTaken(w: World) {
    exists g :: g in w.remote && w.remote[g].name == w.name
  }

  /** The stored ID exists on the server. */
  predicate Known(w: World, i: PassInput)
    requires i.snapshot < |w.objects|
  {
    w.objects[i.snapshot].status.id != "" && w.objects[i.snapshot].status.id in w.remote
  }

  /** The policy allows what the pass has to do: nothing for a known group, else to adopt or to create. */
  predicate PolicyAllows(w: World, i: PassInput)
    requires i.snapshot < |w.objects|
  {
    var creation := w.objects[i.snapshot].spec.creation;
    Known(w, i) || if NameTaken(w) then creation != Create else creation != Adopt
  }

  /** The calls of `acquire` that this pass has to make succeed. */
  predicate AcquireCallsSucceed(w: World, i: PassInput)
    requires i.snapshot < |w.objects|
  {
    && (w.objects[i.snapshot].status.id != "" ==> i.getByID.Fine?)
    && (!Known(w, i) ==>
          && i.getByName.Fine?
          && (if NameTaken(w) then i.nameHasID else i.create.Fine? && i.createHasID && i.getCreated.Fine?))
  }

  /** `acquire` binds a group exactly if its calls succeed and the policy allows it, and it binds the right one. */
  lemma AcquiresExactly(w: World, i: PassInput)
    requires Shaped(w) && Enabled(w, DoPass(i))
    ensures var a := AcquireOf(w, i);
            && (a.Bound? <==> AcquireCallsSucceed(w, i) && PolicyAllows(w, i))
            && (a.Bound? ==>
                  && a.id in a.remote && a.observed == a.remote[a.id]
                  && (Known(w, i) ==> a.id == w.objects[i.snapshot].status.id)
                  && (!Known(w, i) ==> a.observed.name == w.name && (NameTaken(w) <==> a.id in w.remote)))
            && (a.remote != w.remote ==> !Known(w, i) && !NameTaken(w) && w.objects[i.snapshot].spec.creation != Adopt
                                         && a.remote.Keys == w.remote.Keys + {i.newID})
            && (forall g :: g in w.remote ==> g in a.remote && a.remote[g] == w.remote[g])
  {
    hide Normalize;
  }

  // ---------------------------------------------------------------------------
  // What the group looks like
  // ---------------------------------------------------------------------------

  /** The text reads like the lower-case word, whatever its case. */
  predicate ReadsLike(text: string, lower: string, upper: string)
    requires |lower| == |upper|
  {
    |text| == |lower| && forall k :: 0 <= k < |text| ==> text[k] == lower[k] || text[k] == upper[k]
  }

  predicate HasType(g: RemoteGroup, typ: GroupType) {
    match typ
    case Internal => ReadsLike(g.typ, "internal", "INTERNAL")
    case External => ReadsLike(g.typ, "external", "EXTERNAL")
  }

  /** Name, type, metadata and policies are those of the resource. */
  ghost predicate AsSpecified(g: RemoteGroup, name: string, spec: GroupSpec) {
    g.name == name && HasType(g, spec.typ) && g.metadata == spec.metadata && Elems(g.policies) == Elems(spec.policies)
  }

  lemma FoldsExactly(s: string, typ: GroupType)
    ensures FoldsTo(s, TypeName(typ)) <==> HasType(RemoteGroup("", s, map[], [], [], []), typ)
  {
    var lower := TypeName(typ);
    var upper := if typ == Internal then "INTERNAL" else "EXTERNAL";
    if |s| == |lower| {
      forall k | 0 <= k < |s| ensures LowerChar(s[k]) == lower[k] <==> s[k] == lower[k] || s[k] == upper[k] {
        LowerCharExactly(s[k], lower[k], upper[k]);
      }
    }
  }

  lemma LowerCharExactly(c: char, lower: char, upper: char)
    requires 'a' <= lower <= 'z' && upper as int == lower as int - 32
    ensures LowerChar(c) == lower <==> c == lower || c == upper
  {
  }

  /** A written group, whichever way the pass came to it, is as the spec says. */
  lemma WrittenAsSpecified(w: World, i: PassInput)
    requires Shaped(w) && Enabled(w, DoPass(i)) && Wrote(w, i)
    ensures var p := PassOf(w, i);
            p.target in p.remote && AsSpecified(p.remote[p.target], w.name, w.objects[i.snapshot].spec)
  {
    hide PassOf, Normalize, FaithfulReplies, Resolve, ClaimIDs, HasType, TypeName, FoldsTo;
    PassSummary(w, i);
    var p := PassOf(w, i);
    var spec := w.objects[i.snapshot].spec;
    NormalizeCanonical(spec.policies);
    NormalizeCanonical(p.base[p.target].policies);
    FoldsExactly(p.remote[p.target].typ, spec.typ);
    HasTypeOf(p.remote[p.target], spec.typ);
    FoldsToItself(spec.typ);
  }

  lemma HasTypeOf(g: RemoteGroup, typ: GroupType)
    ensures HasType(g, typ) <==> HasType(RemoteGroup("", g.typ, map[], [], [], []), typ)
  {
  }

  /** The members are those claimed and those found that were not read as managed. */
  ghost predicate HasMembers(w: World, i: PassInput, g: RemoteGroup)
    requires Shaped(w) && Enabled(w, DoPass(i))
  {
    forall kind, x :: x in Elems(MemberList(g, kind)) <==>
      || Claimed(w.name, w.views[i.view], kind, x)
      || (x in Elems(MemberList(g, kind)) && x !in Managed(w.objects[i.snapshot].status, kind))
  }

  /** A pass that reaches its claims sends an update exactly when the group differs from what is asked for. */
  lemma UpdatesExactly(w: World, i: PassInput)
    requires Shaped(w) && Enabled(w, DoPass(i)) && PassOf(w, i).reached
    ensures var p := PassOf(w, i);
            && p.target in p.base && p.updates <= 1
            && (p.updates == 0 <==>
                  AsSpecified(p.base[p.target], w.name, w.objects[i.snapshot].spec) && HasMembers(w, i, p.base[p.target]))
  {
    hide PassOf, FaithfulReplies, Resolve, ClaimIDs, Claimed, Normalize, HasType, TypeName, FoldsTo, Sort, Compact;
    PassSummary(w, i);
    ReachedClaims(w, i);
    var p := PassOf(w, i);
    var obj := w.objects[i.snapshot];
    var g := p.base[p.target];
    var d := Desired(w.name, obj.spec, obj.status.(id := p.target), Some(g), p.claims);
    ResolveIsExact(w.name, obj.spec.typ, w.views[i.view]);
    MembersAsked(w, i, obj.status.(id := p.target), g, p.claims);
    DesiredIsNormal(w.name, obj.spec, obj.status.(id := p.target), g, p.claims);
    MatchesExactly(d, g);
    FoldsExactly(g.typ, obj.spec.typ);
    HasTypeOf(g, obj.spec.typ);
    NormalizeCanonical(obj.spec.policies);
  }

  /** The desired members are those there exactly when the group has the members asked for. */
  lemma MembersAsked(w: World, i: PassInput, status: GroupStatus, g: RemoteGroup, claims: seq<Claim>)
    requires Shaped(w) && Enabled(w, DoPass(i)) && status == w.objects[i.snapshot].status.(id := status.id)
    requires forall kind, x :: Claim(kind, x) in claims <==> Claimed(w.name, w.views[i.view], kind, x)
    ensures var d := Desired(w.name, w.objects[i.snapshot].spec, status, Some(g), claims);
            HasMembers(w, i, g) <==> Elems(d.entities) == Elems(g.entities) && Elems(d.groups) == Elems(g.groups)
  {
    hide FaithfulReplies, Claimed, Normalize, ClaimIDs;
    var obj := w.objects[i.snapshot];
    var d := Desired(w.name, obj.spec, status, Some(g), claims);
    forall kind
      ensures Elems(MemberList(d, kind)) == Elems(MemberList(g, kind)) - Managed(obj.status, kind) + Elems(ClaimIDs(claims, kind))
      ensures forall x :: x in Elems(ClaimIDs(claims, kind)) <==> Claimed(w.name, w.views[i.view], kind, x)
    {
      DesiredMembers(w.name, obj.spec, status, g, claims, kind);
      ClaimIDsElems(claims, kind);
    }
    assert d.entities == MemberList(d, Entity) && d.groups == MemberList(d, Subgroup);
    assert g.entities == MemberList(g, Entity) && g.groups == MemberList(g, Subgroup);
    hide Desired;
    assert HasMembers(w, i, g) ==> forall kind, x :: x in Elems(MemberList(d, kind)) <==> x in Elems(MemberList(g, kind));
    if Elems(d.entities) == Elems(g.entities) && Elems(d.groups) == Elems(g.groups) {
      forall kind ensures Elems(MemberList(d, kind)) == Elems(MemberList(g, kind)) {}
    }
  }

  lemma MatchesExactly(d: RemoteGroup, g: RemoteGroup)
    requires Normalize(d.policies) == d.policies && Normalize(d.entities) == d.entities && Normalize(d.groups) == d.groups
    ensures GroupMatches(d, g) <==>
              && g.name == d.name && FoldsTo(g.typ, d.typ) && g.metadata == d.metadata
              && Elems(g.policies) == Elems(d.policies) && Elems(g.entities) == Elems(d.entities) && Elems(g.groups) == Elems(d.groups)
  {
    hide Normalize, FoldsTo;
    NormalizeDecides(g.policies, d.policies);
    NormalizeDecides(g.entities, d.entities);
    NormalizeDecides(g.groups, d.groups);
  }

  lemma DesiredIsNormal(name: string, spec: GroupSpec, status: GroupStatus, g: RemoteGroup, claims: seq<Claim>)
    ensures var d := Desired(name, spec, status, Some(g), claims);
            && Normalize(d.policies) == d.policies && Normalize(d.entities) == d.entities && Normalize(d.groups) == d.groups
  {
    hide Normalize;
    NormalizeIdempotent(spec.policies);
    NormalizeIdempotent(Subtract(g.entities, status.managedEntities) + ClaimIDs(claims, Entity));
    NormalizeIdempotent(Subtract(g.groups, status.managedGroups) + ClaimIDs(claims, Subgroup));
  }

  // ---------------------------------------------------------------------------
  // When a pass completes, and what it reports
  // ---------------------------------------------------------------------------

  /** A version the pass adds says Ready exactly if the pass recorded its claims. */
  ghost predicate TrueReady(objects: seq<GroupObject>, p: PassResult) {
    |p.objects| > |objects| ==> (GroupReadiness.SaysReady(p.objects[|p.objects| - 1]) <==> p.recorded)
  }

  lemma FinishTrueReady(base: Remote, remote: Remote, objects: seq<GroupObject>, i: PassInput, status: GroupStatus,
                        claims: seq<Claim>, updates: nat)
    requires i.snapshot < |objects|
    ensures TrueReady(objects, Finish(base, remote, objects, i, status, claims, updates))
  {
    hide Conditions.Apply, Normalize, ClaimIDs, IsTrue;
    ApplyThenFind(status.conditions, Ready(objects[i.snapshot].generation, "OpenBao group is reconciled", i.clock, i.clock));
  }

  lemma ConvergeTrueReady(name: string, remote: Remote, objects: seq<GroupObject>, v: View, i: PassInput,
                          status: GroupStatus, observed: RemoteGroup)
    requires i.snapshot < |objects|
    ensures TrueReady(objects, Converge(name, remote, objects, v, i, status, observed))
  {
    hide Conditions.Apply, Failed, Desired, GroupMatches, Resolve, GroupReadiness.SaysReady, Finish;
    var obj := objects[i.snapshot];
    var g := obj.generation;
    if observed.name != "" && observed.name != name {
      GroupReadiness.FailedIsNotReady(remote, objects, i, status, Error(g, "GroupIdentityMismatch", Some(observed.name), i.clock));
      FailedFacts(remote, objects, i, status, Error(g, "GroupIdentityMismatch", Some(observed.name), i.clock));
    } else if i.listing.ErrBefore? || i.listing.ErrAfter? {
      GroupReadiness.FailedIsNotReady(remote, objects, i, status, Error(g, "GroupMembershipReadFailed", Some(i.listing.message), i.clock));
      FailedFacts(remote, objects, i, status, Error(g, "GroupMembershipReadFailed", Some(i.listing.message), i.clock));
    } else if i.listing.Fine? {
      match Resolve(name, obj.spec.typ, v)
      case Unresolved(true, message) =>
        GroupReadiness.FailedIsNotReady(remote, objects, i, status, Stalled(g, "DependencyNotReady", Some(message), i.clock, i.clock));
        FailedFacts(remote, objects, i, status, Stalled(g, "DependencyNotReady", Some(message), i.clock, i.clock));
      case Unresolved(false, message) =>
        GroupReadiness.FailedIsNotReady(remote, objects, i, status, Error(g, "GroupMembershipResolutionFailed", Some(message), i.clock));
        FailedFacts(remote, objects, i, status, Error(g, "GroupMembershipResolutionFailed", Some(message), i.clock));
      case Resolved(claims) =>
        UpdateTrueReady(name, remote, objects, i, status, observed, claims);
    }
  }

  lemma UpdateTrueReady(name: string, remote: Remote, objects: seq<GroupObject>, i: PassInput,
                        status: GroupStatus, observed: RemoteGroup, claims: seq<Claim>)
    requires i.snapshot < |objects|
    ensures var obj := objects[i.snapshot];
            var desired := Desired(name, obj.spec, status, Some(observed), claims);
            var remote' := if i.update.TookEffect() then remote[status.id := desired] else remote;
            && TrueReady(objects, Finish(remote, remote, objects, i, status, claims, 0))
            && TrueReady(objects, Finish(remote, remote', objects, i, status, claims, 1))
            && (i.update.ErrBefore? || i.update.ErrAfter? ==>
                  NoneReady(objects, Failed(remote', objects, i, status, Error(obj.generation, "GroupUpdateFailed", Some(i.update.message), i.clock)).objects))
            && (i.readBack.ErrBefore? || i.readBack.ErrAfter? ==>
                  NoneReady(objects, Failed(remote', objects, i, status, Error(obj.generation, "GroupReadFailed", Some(i.readBack.message), i.clock)).objects))
  {
    hide Conditions.Apply, Failed, Desired, GroupReadiness.SaysReady, Finish;
    var g := objects[i.snapshot].generation;
    var desired := Desired(name, objects[i.snapshot].spec, status, Some(observed), claims);
    var remote' := if i.update.TookEffect() then remote[status.id := desired] else remote;
    FinishTrueReady(remote, remote, objects, i, status, claims, 0);
    FinishTrueReady(remote, remote', objects, i, status, claims, 1);
    if i.update.ErrBefore? || i.update.ErrAfter? {
      GroupReadiness.FailedIsNotReady(remote', objects, i, status, Error(g, "GroupUpdateFailed", Some(i.update.message), i.clock));
    }
    if i.readBack.ErrBefore? || i.readBack.ErrAfter? {
      GroupReadiness.FailedIsNotReady(remote', objects, i, status, Error(g, "GroupReadFailed", Some(i.readBack.message), i.clock));
    }
  }

  ghost predicate NoneReady(objects: seq<GroupObject>, objects': seq<GroupObject>) {
    |objects'| > |objects| ==> !GroupReadiness.SaysReady(objects'[|objects'| - 1])
  }

  /**
   Ready is never claimed in vain: a version that any pass stores says Ready exactly when the pass
   recorded its claims, and then it carries the ID of a group that is as the spec says and holds
   every claimed member.
   */
  lemma ReadyIsTrue(w: World, i: PassInput)
    requires Shaped(w) && Enabled(w, DoPass(i)) && |PassOf(w, i).objects| > |w.objects|
    ensures var p := PassOf(w, i);
            var stored := p.objects[|p.objects| - 1];
            && (GroupReadiness.SaysReady(stored) <==> p.recorded)
            && (GroupReadiness.SaysReady(stored) ==>
                  && stored.status.id == p.target && p.target in p.remote
                  && AsSpecified(p.remote[p.target], w.name, w.objects[i.snapshot].spec)
                  && forall kind, x :: Claimed(w.name, w.views[i.view], kind, x) ==> x in Members(p.remote, p.target, kind))
  {
    hide PassOf, Acquire, Converge, FaithfulReplies, Failed, GroupReadiness.SaysReady, AsSpecified, Members, Claimed, Normalize, ClaimIDs, Desired, GroupMatches, Resolve;
    PassSplits(w, i);
    PassSummary(w, i);
    var obj := w.objects[i.snapshot];
    var a := AcquireOf(w, i);
    var p := PassOf(w, i);
    if i.dependency.None? && a.Bound? {
      ConvergeTrueReady(w.name, a.remote, w.objects, w.views[i.view], i, obj.status.(id := a.id), a.observed);
    } else {
      UnboundNotReady(w, i);
    }
    if p.recorded {
      WrittenAsSpecified(w, i);
      forall kind, x | Claimed(w.name, w.views[i.view], kind, x) ensures x in Members(p.remote, p.target, kind) {
        PassMembers(w, i, p.target, kind, x);
      }
    }
  }

  lemma UnboundNotReady(w: World, i: PassInput)
    requires Shaped(w) && Enabled(w, DoPass(i)) && (i.dependency.Some? || !AcquireOf(w, i).Bound?)
    ensures NoneReady(w.objects, PassOf(w, i).objects)
  {
    hide Acquire, Converge, FaithfulReplies, Failed, GroupReadiness.SaysReady;
    var obj := w.objects[i.snapshot];
    var a := AcquireOf(w, i);
    if i.dependency.Some? {
      GroupReadiness.FailedIsNotReady(w.remote, w.objects, i, obj.status, Stalled(obj.generation, "DependencyNotReady", i.dependency, i.clock, i.clock));
    } else if a.NotBound? {
      GroupReadiness.FailedIsNotReady(a.remote, w.objects, i, obj.status.(id := a.id), Error(obj.generation, "GroupAcquireFailed", Some(a.message), i.clock));
    }
  }

  /** Every call this pass has to make succeeds. */
  predicate CallsAllSucceed(w: World, i: PassInput)
    requires i.snapshot < |w.objects|
  {
    && i.dependency.None? && AcquireCallsSucceed(w, i)
    && i.listing.Fine? && i.update.Fine? && i.readBack.Fine? && i.statusWrite.Fine?
  }

  /** A known group still carries the resource's name, or reports none. */
  predicate NameKept(w: World, i: PassInput)
    requires i.snapshot < |w.objects|
  {
    Known(w, i) ==> w.remote[w.objects[i.snapshot].status.id].name in {"", w.name}
  }

  /** Every membership of the group resolves, and an external group has none. */
  ghost predicate MembershipsResolve(w: World, i: PassInput)
    requires Shaped(w) && Enabled(w, DoPass(i))
  {
    forall m :: m in w.views[i.view].memberships && m.groupRef == w.name ==>
      w.objects[i.snapshot].spec.typ == Internal && exists kind, x :: Claims(w.name, w.views[i.view], m, kind, x)
  }

  /**
   A pass over the newest versions whose calls all succeed completes if and only if the policy
   allows it, the group has not been renamed, and every membership resolves. Otherwise it leaves
   every existing group as it was.
   */
  lemma CompletesExactly(w: World, i: PassInput)
    requires Shaped(w) && Enabled(w, DoPass(i)) && UpToDate(w, i) && CallsAllSucceed(w, i)
    ensures var p := PassOf(w, i);
            && (p.completed <==> PolicyAllows(w, i) && NameKept(w, i) && MembershipsResolve(w, i))
            && (p.completed ==> p.recorded && p.target == Newest(Step(w, DoPass(i))).status.id
                                && p.target in p.remote && AsSpecified(p.remote[p.target], w.name, Newest(w).spec))
            && (!p.completed ==> p.updates == 0 && forall g :: g in w.remote ==> g in p.remote && p.remote[g] == w.remote[g])
  {
    hide PassOf, Acquire, Normalize, FaithfulReplies, Resolve, Observed, AsSpecified, Desired, GroupMatches, ConvergeOf, AcquireCallsSucceed;
    var p := PassOf(w, i);
    AcquiresExactly(w, i);
    PassSplits(w, i);
    ResolvesAll(w, i);
    var a := AcquireOf(w, i);
    if a.Bound? {
      ConvergeCompletes(w, i);
      if p.completed { WrittenAsSpecified(w, i); }
    }
    PassSummary(w, i);
  }

  lemma ResolvesAll(w: World, i: PassInput)
    requires Shaped(w) && Enabled(w, DoPass(i))
    ensures MembershipsResolve(w, i) <==> Resolve(w.name, w.objects[i.snapshot].spec.typ, w.views[i.view]).Resolved?
  {
    hide FaithfulReplies, Resolve, ResolveOne;
    ResolveIsExact(w.name, w.objects[i.snapshot].spec.typ, w.views[i.view]);
    forall m | m in w.views[i.view].memberships && m.groupRef == w.name
      ensures (exists kind, x :: Claims(w.name, w.views[i.view], m, kind, x)) <==> ResolveOne(w.name, w.views[i.view], m).Resolved?
    {
      UnresolvedExactly(w.name, w.views[i.view], m);
      if kind, x :| ResolveOne(w.name, w.views[i.view], m) == Resolved([Claim(kind, x)]) {
        assert Claims(w.name, w.views[i.view], m, kind, x);
      }
    }
  }

  /** The part after `acquire`, all calls succeeding. */
  lemma ConvergeCompletes(w: World, i: PassInput)
    requires Shaped(w) && Enabled(w, DoPass(i)) && UpToDate(w, i) && AcquireOf(w, i).Bound?
    requires i.listing.Fine? && i.update.Fine? && i.readBack.Fine? && i.statusWrite.Fine?
    ensures var a := AcquireOf(w, i);
            var p := ConvergeOf(w, i);
            && (p.completed <==> a.observed.name in {"", w.name} && Resolve(w.name, Newest(w).spec.typ, CurrentView(w)).Resolved?)
            && (p.completed ==> p.recorded && p.reached && p.objects != [] && p.target == a.id && p.objects[|p.objects| - 1].status.id == a.id)
            && (!p.completed ==> p.updates == 0 && p.remote == a.remote)
  {
    hide Acquire, Conditions.Apply, Normalize, ClaimIDs, FaithfulReplies, Resolve, Desired, GroupMatches, Failed;
    var a := AcquireOf(w, i);
    var status := Newest(w).status.(id := a.id);
    ConvergeHasFacts(w.name, a.remote, w.objects, CurrentView(w), i, status, a.observed);
    var g := Newest(w).generation;
    FailedFacts(a.remote, w.objects, i, status, Error(g, "GroupIdentityMismatch", Some(a.observed.name), i.clock));
    var r := Resolve(w.name, Newest(w).spec.typ, CurrentView(w));
    if r.Unresolved? {
      FailedFacts(a.remote, w.objects, i, status, Stalled(g, "DependencyNotReady", Some(r.message), i.clock, i.clock));
      FailedFacts(a.remote, w.objects, i, status, Error(g, "GroupMembershipResolutionFailed", Some(r.message), i.clock));
    }
  }

  /**
   A membership that does not resolve is reported, as waiting or as wrong, and changes no group.
   */
  lemma UnresolvedIsReported(w: World, i: PassInput)
    requires Shaped(w) && Enabled(w, DoPass(i)) && UpToDate(w, i) && i.dependency.None? && AcquireOf(w, i).Bound?
    requires AcquireOf(w, i).observed.name in {"", w.name} && i.listing.Fine? && i.statusWrite.Fine?
    requires Resolve(w.name, Newest(w).spec.typ, CurrentView(w)).Unresolved?
    ensures var p := PassOf(w, i);
            var r := Resolve(w.name, Newest(w).spec.typ, CurrentView(w));
            var cs := Newest(Step(w, DoPass(i))).status.conditions;
            && !p.completed && p.updates == 0 && p.remote == AcquireOf(w, i).remote
            && Reports(cs, "Ready", False, if r.dependency then "DependencyNotReady" else "GroupMembershipResolutionFailed", r.message, Newest(w).generation)
            && (r.dependency ==> Reports(cs, "Stalled", True, "DependencyNotReady", r.message, Newest(w).generation))
  {
    hide PassOf, Acquire, Conditions.Apply, FaithfulReplies, Resolve, Reports;
    PassSplits(w, i);
    var r := Resolve(w.name, Newest(w).spec.typ, CurrentView(w));
    var g := Newest(w).generation;
    var cs := Newest(w).status.conditions;
    MarkReports(cs, Stalled(g, "DependencyNotReady", Some(r.message), i.clock, i.clock));
    MarkReports(cs, Error(g, "GroupMembershipResolutionFailed", Some(r.message), i.clock));
  }

  /** A failure on the newest version whose status write lands: the mark is there afterwards. */
  lemma FailStores(remote: Remote, objects: seq<GroupObject>, i: PassInput, status: GroupStatus, m: Mark)
    requires i.snapshot + 1 == |objects| && i.statusWrite.Fine? && status == objects[i.snapshot].status.(id := status.id)
    ensures var p := Failed(remote, objects, i, status, m);
            && !p.completed && p.updates == 0 && p.remote == remote && p.objects != []
            && MarkedWith(p.objects[|p.objects| - 1].status.conditions, m)
  {
    hide Conditions.Apply, MarkedWith;
    MarkedByApply(status.conditions, m);
  }

  /** How a pass fails before it has bound a group. */
  lemma PassIs(w: World, i: PassInput)
    requires Shaped(w) && Enabled(w, DoPass(i))
    ensures var obj := w.objects[i.snapshot];
            var a := AcquireOf(w, i);
            && (i.dependency.Some? ==>
                  PassOf(w, i) == Failed(w.remote, w.objects, i, obj.status, Stalled(obj.generation, "DependencyNotReady", i.dependency, i.clock, i.clock)))
            && (i.dependency.None? && a.NotBound? ==>
                  PassOf(w, i) == Failed(a.remote, w.objects, i, obj.status.(id := a.id), Error(obj.generation, "GroupAcquireFailed", Some(a.message), i.clock)))
  {
    hide Acquire, Converge, Failed, FaithfulReplies;
  }

  /**
   Every other failure without a crash is reported for its own reason: a missing dependency as
   Stalled, a refused or failed acquisition, a rename, and failing membership reads.
   */
  lemma FailureReported(w: World, i: PassInput)
    requires Shaped(w) && Enabled(w, DoPass(i)) && UpToDate(w, i) && i.statusWrite.Fine?
    ensures var a := AcquireOf(w, i);
            var g := Newest(w).generation;
            var p := PassOf(w, i);
            var cs := Newest(Step(w, DoPass(i))).status.conditions;
            if i.dependency.Some? then
              !p.completed && p.remote == w.remote
              && Reports(cs, "Ready", False, "DependencyNotReady", i.dependency.value, g)
              && Reports(cs, "Stalled", True, "DependencyNotReady", i.dependency.value, g)
            else if a.NotBound? then
              !p.completed && p.updates == 0 && Reports(cs, "Ready", False, "GroupAcquireFailed", a.message, g)
            else if a.Bound? && a.observed.name !in {"", w.name} then
              !p.completed && p.updates == 0 && p.remote == a.remote && Reports(cs, "Ready", False, "GroupIdentityMismatch", a.observed.name, g)
            else if a.Bound? && (i.listing.ErrBefore? || i.listing.ErrAfter?) then
              !p.completed && p.updates == 0 && p.remote == a.remote && Reports(cs, "Ready", False, "GroupMembershipReadFailed", i.listing.message, g)
            else true
  {
    hide PassOf, Acquire, Conditions.Apply, FaithfulReplies, Resolve, Reports, Desired, GroupMatches, Finish, Failed;
    PassSummary(w, i);
    var a := AcquireOf(w, i);
    var g := Newest(w).generation;
    PassIs(w, i);
    if i.dependency.Some? {
      FailStores(w.remote, w.objects, i, Newest(w).status, Stalled(g, "DependencyNotReady", i.dependency, i.clock, i.clock));
    } else if a.NotBound? {
      FailStores(a.remote, w.objects, i, Newest(w).status.(id := a.id), Error(g, "GroupAcquireFailed", Some(a.message), i.clock));
    } else if a.Bound? {
      PassSplits(w, i);
      var status := Newest(w).status.(id := a.id);
      FailStores(a.remote, w.objects, i, status, Error(g, "GroupIdentityMismatch", Some(a.observed.name), i.clock));
      if i.listing.ErrBefore? || i.listing.ErrAfter? {
        FailStores(a.remote, w.objects, i, status, Error(g, "GroupMembershipReadFailed", Some(i.listing.message), i.clock));
      }
    }
  }

  /** So are a failed update and a failed read-back. */
  lemma UpdateFailureReported(w: World, i: PassInput)
    requires Shaped(w) && Enabled(w, DoPass(i)) && UpToDate(w, i) && i.statusWrite.Fine? && PassOf(w, i).updates == 1
    ensures var g := Newest(w).generation;
            var p := PassOf(w, i);
            var cs := Newest(Step(w, DoPass(i))).status.conditions;
            && (i.update.ErrBefore? || i.update.ErrAfter? ==>
                  !p.completed && Reports(cs, "Ready", False, "GroupUpdateFailed", i.update.message, g))
            && (i.update.Fine? && (i.readBack.ErrBefore? || i.readBack.ErrAfter?) ==>
                  !p.completed && Reports(cs, "Ready", False, "GroupReadFailed", i.readBack.message, g))
  {
    hide PassOf, Acquire, Conditions.Apply, FaithfulReplies, Resolve, Reports, Desired, GroupMatches;
    PassSplits(w, i);
    var g := Newest(w).generation;
    var cs := Newest(w).status.conditions;
    if i.update.ErrBefore? || i.update.ErrAfter? { MarkReports(cs, Error(g, "GroupUpdateFailed", Some(i.update.message), i.clock)); }
    if i.readBack.ErrBefore? || i.readBack.ErrAfter? { MarkReports(cs, Error(g, "GroupReadFailed", Some(i.readBack.message), i.clock)); }
  }
}
