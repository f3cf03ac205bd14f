/**
 What one pass over an entity achieves, read off the spec and the server: when the entity is found
 or created, when it is updated, what it then looks like, when the pass completes, and what the
 stored status says.
 */
module EntityEffects {
  import opened Kube
  import opened StringLists
  import opened Conditions
  import opened Entity
  import opened EntityRuns

  // ---------------------------------------------------------------------------
  // Finding or creating the entity
  // ---------------------------------------------------------------------------

  predicate NameTaken(name: string, remote: Remote) {
    exists id :: id in remote && remote[id].name == name
  }

  /** The policy allows what the pass has to do: nothing for a known entity, else to adopt or to create. */
  predicate PolicyAllows(name: string, remote: Remote, obj: Version) {
    || (obj.status.id != "" && obj.status.id in remote)
    || if NameTaken(name, remote) then obj.spec.creation != Create else obj.spec.creation != Adopt
  }

  /** The calls of `acquire` that this pass has to make succeed. */
  predicate AcquireCallsSucceed(name: string, remote: Remote, obj: Version, i: PassInput) {
    var known := obj.status.id != "" && obj.status.id in remote;
    && (obj.status.id != "" ==> i.getByID.Fine?)
    && (!known ==>
          && i.getByName.Fine?
          && (if NameTaken(name, remote) then i.nameHasID else i.create.Fine? && i.createHasID && i.getCreated.Fine?))
  }

  /**
   `acquire` binds an entity exactly if its calls succeed and the policy allows it, and it binds the
   right one. It sends a create only for a name that is free under a policy that may create, and
   logs an adoption only of the entity of that name under a policy that may adopt.
   */
  lemma AcquiresExactly(name: string, remote: Remote, obj: Version, i: PassInput)
    requires FaithfulReplies(name, remote, i)
    ensures var a := Acquire(name, obj.spec, obj.status.id, remote, i);
            var known := obj.status.id != "" && obj.status.id in remote;
            && (a.Bound? <==> AcquireCallsSucceed(name, remote, obj, i) && PolicyAllows(name, remote, obj))
            && (a.Bound? ==>
                  && a.id in a.remote && a.observed == a.remote[a.id]
                  && (known ==> a.id == obj.status.id)
                  && (!known ==> a.observed.name == name && (NameTaken(name, remote) <==> a.id in remote)))
            && (CreateSent in a.events ==> !known && !NameTaken(name, remote) && obj.spec.creation != Adopt)
            && (forall e :: e in a.events && e.Adopted? ==>
                  !known && e.policy == obj.spec.creation && e.policy != Create && e.id in remote && remote[e.id].name == name)
            && (a.remote != remote ==> CreateSent in a.events && a.remote.Keys == remote.Keys + {i.newID})
            && (forall id :: id in remote ==> id in a.remote && a.remote[id] == remote[id])
  {
    hide Sort;
    if i.nameHit.None? {
      assert !NameTaken(name, remote);
    } else {
      assert NameTaken(name, remote);
    }
    AcquireHasFacts(name, obj.spec, obj.status.id, remote, i);
  }

  // ---------------------------------------------------------------------------
  // What the entity looks like
  // ---------------------------------------------------------------------------

  /** Every field is that of the resource; policies count with repetition and in any order. */
  ghost predicate AsSpecified(e: Config, name: string, spec: Spec) {
    e.name == name && e.disabled == spec.disabled && e.metadata == spec.metadata && multiset(e.policies) == multiset(spec.policies)
  }

  lemma MatchesExactly(name: string, spec: Spec, e: Config)
    ensures EntityMatches(Desired(name, spec), e) <==> AsSpecified(e, name, spec)
    ensures AsSpecified(Desired(name, spec), name, spec)
  {
    SortIsSortedPermutation(spec.policies);
    SortIsSortedPermutation(e.policies);
    if multiset(e.policies) == multiset(spec.policies) {
      SortDecides(e.policies, spec.policies);
    }
  }

  /**
   Drift correction of a bound entity: an update of exactly that entity is sent if and only if it
   differs from the spec, and a completed pass leaves it as the spec says.
   */
  lemma CorrectsExactly(name: string, remote: Remote, store: Store, i: PassInput, status: EntityStatus, observed: Config)
    requires i.snapshot < |store.versions| && status.id in remote && remote[status.id] == observed
    ensures var spec := store.versions[i.snapshot].spec;
            var p := Converge(name, remote, store, i, status, observed, []);
            && p.events == (if AsSpecified(observed, name, spec) then [] else [UpdateSent(status.id)])
            && (AsSpecified(observed, name, spec) ==> p.remote == remote)
            && (p.completed && i.renamed.None? ==>
                  status.id in p.remote && AsSpecified(p.remote[status.id], name, spec) && p.remote == remote[status.id := p.remote[status.id]])
            && (p.completed && !AsSpecified(observed, name, spec) ==> i.renamed.None? || i.renamed.value in {"", name})
  {
    hide Conditions.Apply, Desired, EntityMatches, Persist, AsSpecified, Sort;
    var spec := store.versions[i.snapshot].spec;
    MatchesExactly(name, spec, observed);
    FailedFacts(remote, store, i, status, Error(store.versions[i.snapshot].generation, "EntityIdentityMismatch", Some(observed.name), i.clock), []);
  }

  // ---------------------------------------------------------------------------
  // A pass over an object that is not being deleted
  // ---------------------------------------------------------------------------

  /** Every call this pass has to make succeeds, and nobody renames the entity meanwhile. */
  predicate CallsAllSucceed(name: string, remote: Remote, obj: Version, i: PassInput) {
    && i.dependency.None? && AcquireCallsSucceed(name, remote, obj, i)
    && i.update.Fine? && i.readBack.Fine? && i.statusWrite.Fine? && i.renamed.None?
  }

  /** The pass as `acquire` and drift correction. */
  lemma LiveSplits(name: string, remote: Remote, store: Store, i: PassInput)
    requires i.snapshot < |store.versions| && FaithfulReplies(name, remote, i)
    ensures var obj := store.versions[i.snapshot];
            var a := Acquire(name, obj.spec, obj.status.id, remote, i);
            var p := Live(name, remote, store, i);
            if i.dependency.None? && a.Bound? then
              var q := Converge(name, a.remote, store, i, obj.status.(id := a.id), a.observed, []);
              p == q.(events := a.events + q.events)
            else !p.completed && p.remote == (if i.dependency.Some? then remote else a.remote)
                 && p.events == (if i.dependency.Some? then [] else a.events)
  {
    hide Acquire, Converge, FaithfulReplies, Failed;
    var obj := store.versions[i.snapshot];
    var a := Acquire(name, obj.spec, obj.status.id, remote, i);
    if i.dependency.Some? {
      FailedFacts(remote, store, i, obj.status, Stalled(obj.generation, "DependencyNotReady", i.dependency, i.clock, i.clock), []);
    } else if a.NotBound? {
      FailedFacts(a.remote, store, i, obj.status.(id := a.id), Error(obj.generation, "EntityAcquireFailed", Some(a.message), i.clock), a.events);
    } else if a.Bound? {
      EventsPrepend(name, a.remote, store, i, obj.status.(id := a.id), a.observed, a.events);
    }
  }

  /** The ID a completed pass has stored: in the version it added, or already in the one it read. */
  function StoredID(store: Store, snapshot: nat, store': Store): string
    requires snapshot < |store.versions| && store'.versions != []
  {
    if |store'.versions| > |store.versions| then Latest(store').status.id else store.versions[snapshot].status.id
  }

  /**
   Whatever a completed pass found, the entity whose ID is stored is on the server as the spec says,
   unless someone renamed it meanwhile.
   */
  lemma CompletedAsSpecified(name: string, remote: Remote, store: Store, i: PassInput)
    requires i.snapshot < |store.versions| && FaithfulReplies(name, remote, i) && i.renamed.None?
    ensures var p := Live(name, remote, store, i);
            p.completed ==>
              && p.store.versions != []
              && var id := StoredID(store, i.snapshot, p.store);
                 id in p.remote && AsSpecified(p.remote[id], name, store.versions[i.snapshot].spec)
  {
    hide Acquire, Converge, FaithfulReplies, AsSpecified, Live;
    var obj := store.versions[i.snapshot];
    var a := Acquire(name, obj.spec, obj.status.id, remote, i);
    LiveSplits(name, remote, store, i);
    if i.dependency.None? && a.Bound? {
      AcquiresExactly(name, remote, obj, i);
      var status := obj.status.(id := a.id);
      CorrectsExactly(name, a.remote, store, i, status, a.observed);
      ConvergeStores(name, a.remote, store, i, status, a.observed);
    }
  }

  /** A completed correction has stored the ID it worked on. */
  lemma ConvergeStores(name: string, remote: Remote, store: Store, i: PassInput, status: EntityStatus, observed: Config)
    requires i.snapshot < |store.versions|
    ensures var p := Converge(name, remote, store, i, status, observed, []);
            p.completed ==> p.store.versions != [] && StoredID(store, i.snapshot, p.store) == status.id
  {
    hide Conditions.Apply, Desired, EntityMatches;
  }

  /**
   A pass over the newest version whose calls all succeed completes if and only if the policy allows
   it. Then the newest version carries the ID of an entity as the spec says and reports Ready.
   */
  lemma CompletesExactly(name: string, remote: Remote, store: Store, i: PassInput)
    requires Writable(store, i.snapshot) && FaithfulReplies(name, remote, i)
    requires CallsAllSucceed(name, remote, store.versions[i.snapshot], i)
    ensures var obj := store.versions[i.snapshot];
            var p := Live(name, remote, store, i);
            && (p.completed <==> PolicyAllows(name, remote, obj))
            && (p.completed ==>
                  && p.store.versions != [] && ReportsReady(Latest(p.store), obj.generation)
                  && Latest(p.store).status.id in p.remote
                  && AsSpecified(p.remote[Latest(p.store).status.id], name, obj.spec))
            && (!p.completed ==> p.remote == remote)
  {
    hide Acquire, Converge, FaithfulReplies, AsSpecified, Live, PolicyAllows, AcquireCallsSucceed, ReportsReady;
    var obj := store.versions[i.snapshot];
    var a := Acquire(name, obj.spec, obj.status.id, remote, i);
    LiveSplits(name, remote, store, i);
    AcquiresExactly(name, remote, obj, i);
    CompletedAsSpecified(name, remote, store, i);
    LiveStore(name, remote, store, i);
    if a.Bound? {
      ConvergeCompletes(name, a.remote, store, i, obj.status.(id := a.id), a.observed);
    } else {
      RefusedKeeps(name, remote, obj, i);
    }
  }

  lemma RefusedKeeps(name: string, remote: Remote, obj: Version, i: PassInput)
    requires FaithfulReplies(name, remote, i) && AcquireCallsSucceed(name, remote, obj, i) && !PolicyAllows(name, remote, obj)
    ensures Acquire(name, obj.spec, obj.status.id, remote, i).remote == remote
  {
    hide Sort;
  }

  ghost predicate ReportsReady(v: Version, generation: int) {
    Reports(v.status.conditions, "Ready", True, "Reconciled", "OpenBao entity is reconciled", generation)
  }

  lemma ConvergeCompletes(name: string, remote: Remote, store: Store, i: PassInput, status: EntityStatus, observed: Config)
    requires Writable(store, i.snapshot) && status == store.versions[i.snapshot].status.(id := status.id)
    requires i.update.Fine? && i.readBack.Fine? && i.statusWrite.Fine? && i.renamed.None?
    ensures var obj := store.versions[i.snapshot];
            var p := Converge(name, remote, store, i, status, observed, []);
            p.completed && p.store.versions != [] && Latest(p.store).status.id == status.id && ReportsReady(Latest(p.store), obj.generation)
  {
    hide Conditions.Apply, Reports, Sort;
    MarkReports(status.conditions, Ready(store.versions[i.snapshot].generation, "OpenBao entity is reconciled", i.clock, i.clock));
  }

  /** The part of a pass: a version it adds says Ready only if the pass got through its correction. */
  ghost predicate TrueReady(store: Store, p: PassResult, held: bool) {
    |p.store.versions| > |store.versions| && IsTrue(Latest(p.store).status.conditions, "Ready") ==> held
  }

  lemma FailedNotReady(remote: Remote, store: Store, i: PassInput, status: EntityStatus, m: Mark, events: seq<Event>)
    requires i.snapshot < |store.versions| && !m.Ready?
    ensures TrueReady(store, Failed(remote, store, i, status, m, events), false)
  {
    hide Conditions.Apply, IsTrue;
    ApplyThenFind(status.conditions, m);
  }

  lemma ConvergeTrueReady(name: string, remote: Remote, store: Store, i: PassInput, status: EntityStatus, observed: Config)
    requires i.snapshot < |store.versions| && status.id in remote && remote[status.id] == observed && i.renamed.None?
    ensures var p := Converge(name, remote, store, i, status, observed, []);
            TrueReady(store, p, p.store.versions != [] && Latest(p.store).status.id == status.id && status.id in p.remote
                                && AsSpecified(p.remote[status.id], name, store.versions[i.snapshot].spec))
  {
    hide Conditions.Apply, IsTrue, Desired, EntityMatches, Failed, AsSpecified;
    var obj := store.versions[i.snapshot];
    var g := obj.generation;
    var desired := Desired(name, obj.spec);
    MatchesExactly(name, obj.spec, observed);
    var remote' := if i.update.TookEffect() then remote[status.id := desired] else remote;
    var sent := [] + [UpdateSent(status.id)];
    FailedNotReady(remote, store, i, status, Error(g, "EntityIdentityMismatch", Some(observed.name), i.clock), []);
    FailedNotReady(remote', store, i, status, Error(g, "EntityIdentityMismatch", Some(desired.name), i.clock), sent);
    if i.update.ErrBefore? || i.update.ErrAfter? {
      FailedNotReady(remote', store, i, status, Error(g, "EntityUpdateFailed", Some(i.update.message), i.clock), sent);
    }
    if i.readBack.ErrBefore? || i.readBack.ErrAfter? {
      FailedNotReady(remote', store, i, status, Error(g, "EntityReadFailed", Some(i.readBack.message), i.clock), sent);
    }
  }

  /**
   Ready is never claimed in vain: a version that any pass stores with Ready carries the ID of an
   entity that is on the server as the spec says, unless someone renamed it meanwhile.
   */
  lemma ReadyIsTrue(name: string, remote: Remote, store: Store, i: PassInput)
    requires i.snapshot < |store.versions| && FaithfulReplies(name, remote, i) && i.renamed.None?
    ensures var p := Live(name, remote, store, i);
            |p.store.versions| > |store.versions| && IsTrue(Latest(p.store).status.conditions, "Ready") ==>
              && Latest(p.store).status.id in p.remote
              && AsSpecified(p.remote[Latest(p.store).status.id], name, store.versions[i.snapshot].spec)
  {
    hide Acquire, Converge, FaithfulReplies, AsSpecified, IsTrue, Failed, Conditions.Apply;
    var obj := store.versions[i.snapshot];
    var a := Acquire(name, obj.spec, obj.status.id, remote, i);
    if i.dependency.Some? {
      FailedNotReady(remote, store, i, obj.status, Stalled(obj.generation, "DependencyNotReady", i.dependency, i.clock, i.clock), []);
    } else if a.NotBound? {
      FailedNotReady(a.remote, store, i, obj.status.(id := a.id), Error(obj.generation, "EntityAcquireFailed", Some(a.message), i.clock), a.events);
    } else if a.Bound? {
      AcquiresExactly(name, remote, obj, i);
      EventsPrepend(name, a.remote, store, i, obj.status.(id := a.id), a.observed, a.events);
      ConvergeTrueReady(name, a.remote, store, i, obj.status.(id := a.id), a.observed);
    }
  }

  // ---------------------------------------------------------------------------
  // In runs
  // ---------------------------------------------------------------------------

  /** In every run a completed pass over a live object leaves an entity as its version says. */
  lemma StepAsSpecified(w: World, i: PassInput)
    requires Enabled(w, DoPass(i)) && i.renamed.None? && PassOf(w, i).completed && !w.store.versions[i.snapshot].deleting
    ensures exists id :: id in Step(w, DoPass(i)).remote && Stores(Step(w, DoPass(i)).store, id)
                         && AsSpecified(Step(w, DoPass(i)).remote[id], w.name, w.store.versions[i.snapshot].spec)
  {
    hide Live, Deletion, FaithfulReplies, AsSpecified;
    var obj := w.store.versions[i.snapshot];
    var j, store' := i, w.store;
    if obj.spec.deletion == Delete && !obj.finalizer {
      j := i.(snapshot := |w.store.versions|);
      store' := w.store.(versions := w.store.versions + [obj.(finalizer := true)]);
    }
    SameReplies(w.name, w.remote, i, j);
    CompletedAsSpecified(w.name, w.remote, store', j);
    LiveStore(w.name, w.remote, store', j);
    var p := Live(w.name, w.remote, store', j);
    var id := StoredID(store', j.snapshot, p.store);
    var k := if |p.store.versions| > |store'.versions| then |p.store.versions| - 1 else j.snapshot;
    assert Step(w, DoPass(i)).store == p.store && Step(w, DoPass(i)).remote == p.remote;
    assert p.store.versions[k].status.id == id;
    assert Stores(p.store, id) && id in p.remote && AsSpecified(p.remote[id], w.name, obj.spec);
  }

  /** The same for `Reconcile` as a whole, with the finalizer already there or still to be set. */
  lemma StepCompletesExactly(w: World, i: PassInput)
    requires Enabled(w, DoPass(i)) && Writable(w.store, i.snapshot) && !w.store.versions[i.snapshot].deleting
    requires CallsAllSucceed(w.name, w.remote, w.store.versions[i.snapshot], i) && i.finalizerWrite.Fine?
    ensures var obj := w.store.versions[i.snapshot];
            var w' := Step(w, DoPass(i));
            && (PassOf(w, i).completed <==> PolicyAllows(w.name, w.remote, obj))
            && (PassOf(w, i).completed ==>
                  && w'.store.versions != [] && ReportsReady(Latest(w'.store), obj.generation)
                  && (obj.spec.deletion == Delete ==> Latest(w'.store).finalizer)
                  && Latest(w'.store).status.id in w'.remote
                  && AsSpecified(w'.remote[Latest(w'.store).status.id], w.name, obj.spec))
            && (!PassOf(w, i).completed ==> w'.remote == w.remote)
  {
    hide Live, Deletion, FaithfulReplies, AsSpecified, ReportsReady;
    var obj := w.store.versions[i.snapshot];
    var j, store' := i, w.store;
    if obj.spec.deletion == Delete && !obj.finalizer {
      j := i.(snapshot := |w.store.versions|);
      store' := w.store.(versions := w.store.versions + [obj.(finalizer := true)]);
    }
    SameReplies(w.name, w.remote, i, j);
    CompletesExactly(w.name, w.remote, store', j);
    LiveStore(w.name, w.remote, store', j);
  }

  // ---------------------------------------------------------------------------
  // Deletion
  // ---------------------------------------------------------------------------

  /**
   Which deletion passes reach OpenBao: exactly those under policy Delete with a recorded ID and a
   reachable server send one delete, of that ID; the others leave OpenBao alone, and under policy
   Orphan, or without an ID, they let the object go at once.
   */
  lemma DeletesExactly(remote: Remote, store: Store, i: PassInput)
    requires i.snapshot < |store.versions|
    ensures var obj := store.versions[i.snapshot];
            var p := Deletion(remote, store, i);
            var due := obj.spec.deletion == Delete && obj.status.id != "";
            && p.events == (if due && i.dependency.None? then [DeleteSent(obj.status.id)] else [])
            && p.remote == (if due && i.dependency.None? && i.delete.TookEffect() then remote - {obj.status.id} else remote)
            && (!due && obj.finalizer && Writable(store, i.snapshot) && i.finalizerWrite.Fine? ==> p.completed && p.store.gone)
            && (p.completed && due ==> i.dependency.None? && i.delete.Fine?)
            && (due && (i.dependency.Some? || !i.delete.Fine?) ==> p.store.gone == store.gone && !p.completed)
  {
    hide Conditions.Apply;
  }

  /** A cleanup that fails is reported on the newest version, which keeps its ID and its finalizer. */
  lemma FailedCleanupReported(remote: Remote, store: Store, i: PassInput)
    requires Writable(store, i.snapshot) && i.statusWrite.Fine?
    requires var obj := store.versions[i.snapshot]; obj.spec.deletion == Delete && obj.status.id != ""
    requires i.dependency.Some? || i.delete.ErrBefore? || i.delete.ErrAfter?
    ensures var obj := store.versions[i.snapshot];
            var p := Deletion(remote, store, i);
            && p.store.versions != [] && !p.store.gone
            && Latest(p.store) == obj.(status := obj.status.(conditions := Latest(p.store).status.conditions))
            && Reports(Latest(p.store).status.conditions, "CleanupRequired", True,
                       if i.dependency.Some? then "CleanupDependencyUnavailable" else "CleanupFailed",
                       if i.dependency.Some? then i.dependency.value else i.delete.message, obj.generation)
  {
    hide Conditions.Apply, Reports;
    var obj := store.versions[i.snapshot];
    if i.dependency.Some? {
      MarkReports(obj.status.conditions, CleanupFailure(obj.generation, "CleanupDependencyUnavailable", i.dependency.value, i.clock, i.clock, i.clock));
    } else {
      MarkReports(obj.status.conditions, CleanupFailure(obj.generation, "CleanupFailed", i.delete.message, i.clock, i.clock, i.clock));
    }
  }

  // ---------------------------------------------------------------------------
  // Failures
  // ---------------------------------------------------------------------------

  /** Ready is False on the newest version, for this reason and with this message. */
  ghost predicate FailedFor(store: Store, reason: string, message: string, generation: int) {
    store.versions != [] && Reports(Latest(store).status.conditions, "Ready", False, reason, message, generation)
  }

  /** A failure on the newest version whose status write lands: the mark is there afterwards. */
  lemma FailStores(remote: Remote, store: Store, i: PassInput, status: EntityStatus, m: Mark, events: seq<Event>)
    requires Writable(store, i.snapshot) && i.statusWrite.Fine? && status == store.versions[i.snapshot].status.(id := status.id)
    ensures var p := Failed(remote, store, i, status, m, events);
            && !p.completed && p.remote == remote && p.store.versions != [] && MarkedWith(Latest(p.store).status.conditions, m)
  {
    hide Conditions.Apply, MarkedWith;
    MarkedByApply(status.conditions, m);
  }

  /**
   A pass over the newest version that fails without crashing reports why: a missing dependency as
   Stalled, a refused or failed acquisition, update and read-back each with its own reason.
   */
  lemma FailureReported(name: string, remote: Remote, store: Store, i: PassInput)
    requires Writable(store, i.snapshot) && FaithfulReplies(name, remote, i) && i.statusWrite.Fine?
    ensures var obj := store.versions[i.snapshot];
            var a := Acquire(name, obj.spec, obj.status.id, remote, i);
            var p := Live(name, remote, store, i);
            if i.dependency.Some? then
              !p.completed && p.remote == remote && FailedFor(p.store, "DependencyNotReady", i.dependency.value, obj.generation)
              && Reports(Latest(p.store).status.conditions, "Stalled", True, "DependencyNotReady", i.dependency.value, obj.generation)
            else if a.NotBound? then
              !p.completed && FailedFor(p.store, "EntityAcquireFailed", a.message, obj.generation)
            else if a.Bound? && !AsSpecified(a.observed, name, obj.spec) && (i.update.ErrBefore? || i.update.ErrAfter?) then
              !p.completed && FailedFor(p.store, "EntityUpdateFailed", i.update.message, obj.generation)
            else if a.Bound? && !AsSpecified(a.observed, name, obj.spec) && i.update.Fine? && (i.readBack.ErrBefore? || i.readBack.ErrAfter?) then
              !p.completed && FailedFor(p.store, "EntityReadFailed", i.readBack.message, obj.generation)
            else true
  {
    hide Acquire, FaithfulReplies, AsSpecified, Desired, EntityMatches, Conditions.Apply, Reports, Finish, Failed;
    var obj := store.versions[i.snapshot];
    var g := obj.generation;
    var a := Acquire(name, obj.spec, obj.status.id, remote, i);
    if i.dependency.Some? {
      FailStores(remote, store, i, obj.status, Stalled(g, "DependencyNotReady", i.dependency, i.clock, i.clock), []);
    } else if a.NotBound? {
      FailStores(a.remote, store, i, obj.status.(id := a.id), Error(g, "EntityAcquireFailed", Some(a.message), i.clock), a.events);
    } else if a.Bound? {
      MatchesExactly(name, obj.spec, a.observed);
      var status := obj.status.(id := a.id);
      var remote' := if i.update.TookEffect() then a.remote[a.id := if i.renamed.Some? then Desired(name, obj.spec).(name := i.renamed.value) else Desired(name, obj.spec)] else a.remote;
      if i.update.ErrBefore? || i.update.ErrAfter? {
        FailStores(remote', store, i, status, Error(g, "EntityUpdateFailed", Some(i.update.message), i.clock), a.events + [UpdateSent(a.id)]);
      } else if i.readBack.ErrBefore? || i.readBack.ErrAfter? {
        FailStores(remote', store, i, status, Error(g, "EntityReadFailed", Some(i.readBack.message), i.clock), a.events + [UpdateSent(a.id)]);
      }
    }
  }
}
