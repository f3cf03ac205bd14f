/**
 `OpenBaoEntityReconciler`, the ID-keyed lifecycle: one pass over one OpenBaoEntity, including the
 finalizer and external deletion, with every call it sends written to a log.
 */
module Entity {
  import opened Kube
  import opened StringLists
  import opened Conditions

  // ---------------------------------------------------------------------------
  // Data
  // ---------------------------------------------------------------------------

  /** An OpenBao entity; `EntityRequest` has the same fields. A nil metadata map is `None`. */
  datatype Config = Config(name: string, metadata: Option<map<string, string>>, policies: seq<string>, disabled: bool)

  type Remote = map<string, Config>

  datatype Spec = Spec(
    metadata: Option<map<string, string>>, policies: seq<string>, disabled: bool,
    creation: CreationPolicy, deletion: DeletionPolicy)

  datatype EntityStatus = EntityStatus(id: string, conditions: seq<Condition>)

  /** One stored version of the Kubernetes object. */
  datatype Version = Version(generation: int, deleting: bool, finalizer: bool, spec: Spec, status: EntityStatus)

  /** The stored versions, newest last; `gone` once Kubernetes has removed the object. */
  datatype Store = Store(versions: seq<Version>, gone: bool)

  datatype Event =
    | NameAbsent
    | CreateSent
    | Created(id: string)
    | Adopted(id: string, policy: CreationPolicy)
    | UpdateSent(id: string)
    | DeleteSent(id: string)

  /** What a pass reads and meets; `renamed`: someone renames the entity right after the update. */
  datatype PassInput = PassInput(
    snapshot: nat, dependency: Option<string>, finalizerWrite: Fault,
    getByID: Fault, getByName: Fault, nameHit: Option<string>, nameHasID: bool,
    create: Fault, newID: string, createHasID: bool, getCreated: Fault,
    update: Fault, renamed: Option<string>, readBack: Fault, statusWrite: Fault, delete: Fault, clock: int)

  predicate FaithfulReplies(name: string, remote: Remote, i: PassInput) {
    && (i.nameHit.Some? ==> i.nameHit.value != "" && i.nameHit.value in remote && remote[i.nameHit.value].name == name)
    && (i.nameHit.None? ==> forall id :: id in remote ==> remote[id].name != name)
    && i.newID != "" && i.newID !in remote
  }

  /** `normalizedPolicies` sorts and does not compact. */
  function Desired(name: string, spec: Spec): Config {
    Config(name, spec.metadata, Sort(spec.policies), spec.disabled)
  }

  predicate EntityMatches(desired: Config, current: Config) {
    && current.name == desired.name && current.disabled == desired.disabled
    && current.metadata == desired.metadata && Sort(current.policies) == desired.policies
  }

  // ---------------------------------------------------------------------------
  // One pass
  // ---------------------------------------------------------------------------

  datatype PassResult = PassResult(remote: Remote, store: Store, events: seq<Event>, completed: bool)

  function Latest(store: Store): Version
    requires store.versions != []
  {
    store.versions[|store.versions| - 1]
  }

  /** A write lands only on the newest version of an object that still exists. */
  predicate Writable(store: Store, snapshot: nat) {
    !store.gone && snapshot + 1 == |store.versions|
  }

  /** `updateStatusIfChanged`. */
  function Persist(store: Store, snapshot: nat, before: EntityStatus, after: EntityStatus, f: Fault): (Store, bool)
    requires snapshot < |store.versions|
  {
    if before == after then (store, true)
    else if !Writable(store, snapshot) then (store, false)
    else
      (if f.TookEffect() then store.(versions := store.versions + [store.versions[snapshot].(status := after)]) else store,
       f.Fine?)
  }

  /** `fail` and `dependencyFailure`: they compare against a copy taken after `acquire` changed the ID. */
  function Failed(remote: Remote, store: Store, i: PassInput, status: EntityStatus, m: Mark, events: seq<Event>): PassResult
    requires i.snapshot < |store.versions|
  {
    var marked := status.(conditions := Conditions.Apply(status.conditions, m));
    PassResult(remote, Persist(store, i.snapshot, status, marked, i.statusWrite).0, events, false)
  }

  datatype Acquisition =
    | Bound(id: string, observed: Config, remote: Remote, events: seq<Event>)
    | NotBound(id: string, message: string, remote: Remote, events: seq<Event>)
    | Died(remote: Remote, events: seq<Event>)

  function AcquireByName(name: string, spec: Spec, remote: Remote, i: PassInput): Acquisition
    requires FaithfulReplies(name, remote, i)
  {
    if i.getByName.Crashed() then Died(remote, [])
    else if !i.getByName.Fine? then NotBound("", i.getByName.message, remote, [])
    else if i.nameHit.Some? then
      if !spec.creation.AllowsAdoption() then NotBound("", "already exists", remote, [])
      else if !i.nameHasID then NotBound("", "reply without an ID", remote, [])
      else Bound(i.nameHit.value, remote[i.nameHit.value], remote, [Adopted(i.nameHit.value, spec.creation)])
    else if !spec.creation.AllowsCreation() then NotBound("", "does not exist", remote, [NameAbsent])
    else
      var remote' := if i.create.TookEffect() then remote[i.newID := Desired(name, spec)] else remote;
      var events := [NameAbsent, CreateSent] + if i.create.TookEffect() then [Created(i.newID)] else [];
      if i.create.Crashed() then Died(remote', events)
      else if !i.create.Fine? then NotBound("", i.create.message, remote', events)
      else if !i.createHasID then NotBound("", "empty ID", remote', events)
      else if i.getCreated.Crashed() then Died(remote', events)
      else if !i.getCreated.Fine? then NotBound(i.newID, i.getCreated.message, remote', events)
      else Bound(i.newID, Desired(name, spec), remote', events)
  }

  function Acquire(name: string, spec: Spec, id: string, remote: Remote, i: PassInput): Acquisition
    requires FaithfulReplies(name, remote, i)
  {
    if id == "" then AcquireByName(name, spec, remote, i)
    else if i.getByID.Crashed() then Died(remote, [])
    else if !i.getByID.Fine? then NotBound(id, i.getByID.message, remote, [])
    else if id in remote then Bound(id, remote[id], remote, [])
    else AcquireByName(name, spec, remote, i)
  }

  /** From the name check to the status write. */
  function Finish(name: string, remote: Remote, store: Store, i: PassInput, status: EntityStatus, observed: Config,
                  events: seq<Event>): PassResult
    requires i.snapshot < |store.versions|
  {
    var obj := store.versions[i.snapshot];
    if observed.name != "" && observed.name != name then
      Failed(remote, store, i, status, Error(obj.generation, "EntityIdentityMismatch", Some(observed.name), i.clock), events)
    else
      var after := status.(conditions := Conditions.Apply(status.conditions,
                                                          Ready(obj.generation, "OpenBao entity is reconciled", i.clock, i.clock)));
      var stored := Persist(store, i.snapshot, obj.status, after, i.statusWrite);
      PassResult(remote, stored.0, events, stored.1)
  }

  /** Drift correction of a bound entity. */
  function Converge(name: string, remote: Remote, store: Store, i: PassInput, status: EntityStatus, observed: Config,
                    events: seq<Event>): PassResult
    requires i.snapshot < |store.versions|
  {
    var obj := store.versions[i.snapshot];
    var desired := Desired(name, obj.spec);
    if EntityMatches(desired, observed) then Finish(name, remote, store, i, status, observed, events)
    else
      var updated := if i.renamed.Some? then desired.(name := i.renamed.value) else desired;
      var remote' := if i.update.TookEffect() then remote[status.id := updated] else remote;
      var sent := events + [UpdateSent(status.id)];
      if i.update.Crashed() then PassResult(remote', store, sent, false)
      else if !i.update.Fine? then
        Failed(remote', store, i, status, Error(obj.generation, "EntityUpdateFailed", Some(i.update.message), i.clock), sent)
      else if i.readBack.Crashed() then PassResult(remote', store, sent, false)
      else if !i.readBack.Fine? then
        Failed(remote', store, i, status, Error(obj.generation, "EntityReadFailed", Some(i.readBack.message), i.clock), sent)
      else Finish(name, remote', store, i, status, updated, sent)
  }

  /** The pass over an object that is not being deleted, once the finalizer is settled. */
  function Live(name: string, remote: Remote, store: Store, i: PassInput): PassResult
    requires i.snapshot < |store.versions| && FaithfulReplies(name, remote, i)
  {
    var obj := store.versions[i.snapshot];
    if i.dependency.Some? then
      Failed(remote, store, i, obj.status, Stalled(obj.generation, "DependencyNotReady", i.dependency, i.clock, i.clock), [])
    else
      match Acquire(name, obj.spec, obj.status.id, remote, i)
      case Died(remote', events) => PassResult(remote', store, events, false)
      case NotBound(id, message, remote', events) =>
        Failed(remote', store, i, obj.status.(id := id),
               Error(obj.generation, "EntityAcquireFailed", Some(message), i.clock), events)
      case Bound(id, observed, remote', events) =>
        Converge(name, remote', store, i, obj.status.(id := id), observed, events)
  }

  /** `removeFinalizer` on an object being deleted: Kubernetes then removes the object. */
  function RemoveFinalizer(remote: Remote, store: Store, i: PassInput, events: seq<Event>): PassResult
    requires i.snapshot < |store.versions|
  {
    if !store.versions[i.snapshot].finalizer then PassResult(remote, store, events, true)
    else if !Writable(store, i.snapshot) then PassResult(remote, store, events, false)
    else PassResult(remote, store.(gone := i.finalizerWrite.TookEffect()), events, i.finalizerWrite.Fine?)
  }

  function CleanupFailed(remote: Remote, store: Store, i: PassInput, reason: string, cause: string, events: seq<Event>): PassResult
    requires i.snapshot < |store.versions|
  {
    var obj := store.versions[i.snapshot];
    var marked := obj.status.(conditions := Conditions.Apply(obj.status.conditions,
                                                             CleanupFailure(obj.generation, reason, cause, i.clock, i.clock, i.clock)));
    PassResult(remote, Persist(store, i.snapshot, obj.status, marked, i.statusWrite).0, events, false)
  }

  /** `reconcileDeletion`: only a recorded ID is deleted; a missing entity counts as deleted. */
  function Deletion(remote: Remote, store: Store, i: PassInput): PassResult
    requires i.snapshot < |store.versions|
  {
    var obj := store.versions[i.snapshot];
    var id := obj.status.id;
    if obj.spec.deletion != Delete || id == "" then RemoveFinalizer(remote, store, i, [])
    else if i.dependency.Some? then
      CleanupFailed(remote, store, i, "CleanupDependencyUnavailable", i.dependency.value, [])
    else
      var remote' := if i.delete.TookEffect() then remote - {id} else remote;
      if i.delete.Crashed() then PassResult(remote', store, [DeleteSent(id)], false)
      else if !i.delete.Fine? then CleanupFailed(remote', store, i, "CleanupFailed", i.delete.message, [DeleteSent(id)])
      else RemoveFinalizer(remote', store, i, [DeleteSent(id)])
  }

  /** `Reconcile`: `ensureFinalizer` first, then deletion or the live pass. */
  function Pass(name: string, remote: Remote, store: Store, i: PassInput): PassResult
    requires i.snapshot < |store.versions| && FaithfulReplies(name, remote, i)
  {
    var obj := store.versions[i.snapshot];
    if obj.deleting then Deletion(remote, store, i)
    else if obj.spec.deletion == Delete && !obj.finalizer then
      if !Writable(store, i.snapshot) then PassResult(remote, store, [], false)
      else if !i.finalizerWrite.TookEffect() then PassResult(remote, store, [], false)
      else
        var store' := store.(versions := store.versions + [obj.(finalizer := true)]);
        if !i.finalizerWrite.Fine? then PassResult(remote, store', [], false)
        else Live(name, remote, store', i.(snapshot := |store.versions|))
    else Live(name, remote, store, i)
  }

  // ---------------------------------------------------------------------------
  // A pass in short
  // ---------------------------------------------------------------------------

  /** At most one version is added, on top of the one worked on, differing in status only. */
  ghost predicate Appends(store: Store, snapshot: nat, store': Store, ids: set<string>)
    requires snapshot < |store.versions|
  {
    && store'.gone == store.gone
    && (|| store'.versions == store.versions
        || (&& Writable(store, snapshot) && |store'.versions| == |store.versions| + 1
            && store'.versions[..|store.versions|] == store.versions
            && Latest(store') == store.versions[snapshot].(status := Latest(store').status)
            && Latest(store').status.id in ids))
  }

  lemma FailedFacts(remote: Remote, store: Store, i: PassInput, status: EntityStatus, m: Mark, events: seq<Event>)
    requires i.snapshot < |store.versions|
    ensures var p := Failed(remote, store, i, status, m, events);
            p.remote == remote && p.events == events && !p.completed && Appends(store, i.snapshot, p.store, {status.id})
  {
    hide Conditions.Apply;
  }

  lemma FinishFacts(name: string, remote: Remote, store: Store, i: PassInput, status: EntityStatus, observed: Config, events: seq<Event>)
    requires i.snapshot < |store.versions|
    ensures var p := Finish(name, remote, store, i, status, observed, events);
            p.remote == remote && p.events == events && Appends(store, i.snapshot, p.store, {status.id})
  {
    hide Conditions.Apply, Failed;
    FailedFacts(remote, store, i, status,
                Error(store.versions[i.snapshot].generation, "EntityIdentityMismatch", Some(observed.name), i.clock), events);
  }

  lemma ConvergeFacts(name: string, remote: Remote, store: Store, i: PassInput, status: EntityStatus, observed: Config, events: seq<Event>)
    requires i.snapshot < |store.versions|
    ensures var p := Converge(name, remote, store, i, status, observed, events);
            && (p.events == events || p.events == events + [UpdateSent(status.id)])
            && (p.remote == remote || (p.events == events + [UpdateSent(status.id)] && status.id in p.remote
                                       && p.remote == remote[status.id := p.remote[status.id]]))
            && Appends(store, i.snapshot, p.store, {status.id})
  {
    hide Conditions.Apply, Failed, Finish, Desired, EntityMatches;
    var obj := store.versions[i.snapshot];
    var desired := Desired(name, obj.spec);
    FinishFacts(name, remote, store, i, status, observed, events);
    if !EntityMatches(desired, observed) {
      var updated := if i.renamed.Some? then desired.(name := i.renamed.value) else desired;
      var remote' := if i.update.TookEffect() then remote[status.id := updated] else remote;
      var sent := events + [UpdateSent(status.id)];
      FinishFacts(name, remote', store, i, status, updated, sent);
      if !i.update.Fine? {
        if !i.update.Crashed() {
          FailedFacts(remote', store, i, status, Error(obj.generation, "EntityUpdateFailed", Some(i.update.message), i.clock), sent);
        }
      } else if !i.readBack.Fine? && !i.readBack.Crashed() {
        FailedFacts(remote', store, i, status, Error(obj.generation, "EntityReadFailed", Some(i.readBack.message), i.clock), sent);
      }
    }
  }

  /** Earlier events are carried along and decide nothing. */
  lemma EventsPrepend(name: string, remote: Remote, store: Store, i: PassInput, status: EntityStatus, observed: Config, events: seq<Event>)
    requires i.snapshot < |store.versions|
    ensures var p := Converge(name, remote, store, i, status, observed, []);
            Converge(name, remote, store, i, status, observed, events) == p.(events := events + p.events)
  {
    hide Conditions.Apply, Persist, Desired, EntityMatches;
  }

  lemma SameReplies(name: string, remote: Remote, i: PassInput, j: PassInput)
    requires j == i.(snapshot := j.snapshot)
    ensures FaithfulReplies(name, remote, i) <==> FaithfulReplies(name, remote, j)
  {
  }

  /** The log `acquire` may leave, and the ID it may leave in memory. */
  ghost predicate AcquireFacts(id: string, creation: CreationPolicy, remote: Remote, i: PassInput, a: Acquisition) {
    var made := [NameAbsent, CreateSent, Created(i.newID)];
    && (|| (a.events == [] && a.remote == remote)
        || (a.events == [NameAbsent] && a.remote == remote)
        || (a.events == [NameAbsent, CreateSent] && a.remote == remote)
        || (a.events == made && i.newID !in remote && i.newID in a.remote && a.remote == remote[i.newID := a.remote[i.newID]])
        || (a.Bound? && a.events == [Adopted(a.id, creation)] && creation.AllowsAdoption() && a.remote == remote))
    && (a.Bound? ==> a.id != "" && a.id in a.remote && ((a.id == id && a.events == []) || a.events == [Adopted(a.id, creation)] || (a.id == i.newID && a.events == made)))
    && (a.NotBound? ==> a.id == "" || (a.id == id && a.events == []) || (a.id == i.newID && a.events == made))
  }

  lemma AcquireByNameFacts(name: string, spec: Spec, id: string, remote: Remote, i: PassInput)
    requires FaithfulReplies(name, remote, i)
    ensures AcquireFacts(id, spec.creation, remote, i, AcquireByName(name, spec, remote, i))
  {
    hide Desired;
    assert [NameAbsent, CreateSent] + [] == [NameAbsent, CreateSent];
    assert [NameAbsent, CreateSent] + [Created(i.newID)] == [NameAbsent, CreateSent, Created(i.newID)];
  }

  lemma AcquireHasFacts(name: string, spec: Spec, id: string, remote: Remote, i: PassInput)
    requires FaithfulReplies(name, remote, i)
    ensures AcquireFacts(id, spec.creation, remote, i, Acquire(name, spec, id, remote, i))
  {
    hide AcquireByName, FaithfulReplies;
    AcquireByNameFacts(name, spec, id, remote, i);
  }

  // ---------------------------------------------------------------------------
  // The controller, updating the cluster step by step
  // ---------------------------------------------------------------------------

  class EntityCluster {
    const name: string
    var remote: Remote
    var store: Store
    var log: seq<Event>

    constructor (name: string, remote: Remote, store: Store)
      ensures this.name == name && this.remote == remote && this.store == store && log == []
    {
      this.name, this.remote, this.store, this.log := name, remote, store, [];
    }

    /** `acquire`: a recorded ID that vanished is cleared and the name is tried, once. */
    method AcquireEntity(spec: Spec, id: string, i: PassInput) returns (a: Acquisition)
      requires FaithfulReplies(name, remote, i)
      modifies this`remote, this`log
      ensures a == Acquire(name, spec, id, old(remote), i)
      ensures remote == a.remote && log == old(log) + a.events
      decreases id != ""
    {
      if id != "" {
        if i.getByID.Crashed() { return Died(remote, []); }
        if !i.getByID.Fine? { return NotBound(id, i.getByID.message, remote, []); }
        if id in remote { return Bound(id, remote[id], remote, []); }
        a := AcquireEntity(spec, "", i);
        return;
      }
      if i.getByName.Crashed() { return Died(remote, []); }
      if !i.getByName.Fine? { return NotBound("", i.getByName.message, remote, []); }
      if i.nameHit.Some? {
        if !spec.creation.AllowsAdoption() { return NotBound("", "already exists", remote, []); }
        if !i.nameHasID { return NotBound("", "reply without an ID", remote, []); }
        log := log + [Adopted(i.nameHit.value, spec.creation)];
        return Bound(i.nameHit.value, remote[i.nameHit.value], remote, [Adopted(i.nameHit.value, spec.creation)]);
      }
      var events := [NameAbsent];
      if !spec.creation.AllowsCreation() {
        log := log + events;
        return NotBound("", "does not exist", remote, events);
      }
      events := events + [CreateSent];
      if i.create.TookEffect() {
        remote := remote[i.newID := Desired(name, spec)];
        events := events + [Created(i.newID)];
      }
      log := log + events;
      if i.create.Crashed() { return Died(remote, events); }
      if !i.create.Fine? { return NotBound("", i.create.message, remote, events); }
      if !i.createHasID { return NotBound("", "empty ID", remote, events); }
      if i.getCreated.Crashed() { return Died(remote, events); }
      if !i.getCreated.Fine? { return NotBound(i.newID, i.getCreated.message, remote, events); }
      return Bound(i.newID, remote[i.newID], remote, events);
    }

    method UpdateStatusIfChanged(snapshot: nat, before: EntityStatus, after: EntityStatus, f: Fault) returns (ok: bool)
      requires snapshot < |store.versions|
      modifies this`store
      ensures (store, ok) == Persist(old(store), snapshot, before, after, f)
    {
      if before == after { return true; }
      if !Writable(store, snapshot) { return false; }
      if f.TookEffect() { store := store.(versions := store.versions + [store.versions[snapshot].(status := after)]); }
      ok := f.Fine?;
    }

    method Fail(i: PassInput, status: EntityStatus, m: Mark)
      requires i.snapshot < |store.versions|
      modifies this`store
      ensures forall r: Remote, es: seq<Event> :: store == Failed(r, old(store), i, status, m, es).store
    {
      var marked := status.(conditions := Conditions.Apply(status.conditions, m));
      var _ := UpdateStatusIfChanged(i.snapshot, status, marked, i.statusWrite);
    }

    /** The part of `Reconcile` after the finalizer, for an object that is not being deleted. */
    method ReconcileLive(i: PassInput) returns (completed: bool)
      requires i.snapshot < |store.versions| && FaithfulReplies(name, remote, i)
      modifies this
      ensures var p := Live(name, old(remote), old(store), i);
              remote == p.remote && store == p.store && log == old(log) + p.events && completed == p.completed
    {
      hide Conditions.Apply, Converge, AcquireByName, Persist;
      completed := false;
      var obj := store.versions[i.snapshot];
      if i.dependency.Some? {
        Fail(i, obj.status, Stalled(obj.generation, "DependencyNotReady", i.dependency, i.clock, i.clock));
        return;
      }
      var a := AcquireEntity(obj.spec, obj.status.id, i);
      if a.Died? { return; }
      var status := obj.status.(id := a.id);
      if a.NotBound? {
        Fail(i, status, Error(obj.generation, "EntityAcquireFailed", Some(a.message), i.clock));
        return;
      }
      completed := CorrectDrift(i, status, a.observed);
      EventsPrepend(name, a.remote, old(store), i, status, a.observed, a.events);
    }

    method CorrectDrift(i: PassInput, status: EntityStatus, found: Config) returns (completed: bool)
      requires i.snapshot < |store.versions|
      modifies this
      ensures var p := Converge(name, old(remote), old(store), i, status, found, []);
              remote == p.remote && store == p.store && log == old(log) + p.events && completed == p.completed
    {
      completed := false;
      var obj := store.versions[i.snapshot];
      var desired := Desired(name, obj.spec);
      var observed := found;
      if !EntityMatches(desired, observed) {
        log := log + [UpdateSent(status.id)];
        observed := if i.renamed.Some? then desired.(name := i.renamed.value) else desired;
        if i.update.TookEffect() { remote := remote[status.id := observed]; }
        if i.update.Crashed() { return; }
        if !i.update.Fine? {
          Fail(i, status, Error(obj.generation, "EntityUpdateFailed", Some(i.update.message), i.clock));
          return;
        }
        if i.readBack.Crashed() { return; }
        if !i.readBack.Fine? {
          Fail(i, status, Error(obj.generation, "EntityReadFailed", Some(i.readBack.message), i.clock));
          return;
        }
      }
      if observed.name != "" && observed.name != name {
        Fail(i, status, Error(obj.generation, "EntityIdentityMismatch", Some(observed.name), i.clock));
        return;
      }
      var after := status.(conditions := Conditions.Apply(status.conditions,
                                                          Ready(obj.generation, "OpenBao entity is reconciled", i.clock, i.clock)));
      completed := UpdateStatusIfChanged(i.snapshot, obj.status, after, i.statusWrite);
    }

    method RemoveTheFinalizer(i: PassInput) returns (completed: bool)
      requires i.snapshot < |store.versions|
      modifies this`store
      ensures forall r: Remote, es: seq<Event> ::
                var p := RemoveFinalizer(r, old(store), i, es); store == p.store && completed == p.completed
    {
      if !store.versions[i.snapshot].finalizer { return true; }
      if !Writable(store, i.snapshot) { return false; }
      if i.finalizerWrite.TookEffect() { store := store.(gone := true); }
      completed := i.finalizerWrite.Fine?;
    }

    method RecordCleanupFailure(i: PassInput, reason: string, cause: string)
      requires i.snapshot < |store.versions|
      modifies this`store
      ensures forall r: Remote, es: seq<Event> :: store == CleanupFailed(r, old(store), i, reason, cause, es).store
    {
      var obj := store.versions[i.snapshot];
      var m := CleanupFailure(obj.generation, reason, cause, i.clock, i.clock, i.clock);
      var _ := UpdateStatusIfChanged(i.snapshot, obj.status,
                                     obj.status.(conditions := Conditions.Apply(obj.status.conditions, m)), i.statusWrite);
    }

    /** `reconcileDeletion`. */
    method ReconcileDeletion(i: PassInput) returns (completed: bool)
      requires i.snapshot < |store.versions|
      modifies this
      ensures var p := Deletion(old(remote), old(store), i);
              remote == p.remote && store == p.store && log == old(log) + p.events && completed == p.completed
    {
      completed := false;
      var obj := store.versions[i.snapshot];
      if obj.spec.deletion != Delete || obj.status.id == "" {
        completed := RemoveTheFinalizer(i);
        return;
      }
      if i.dependency.Some? {
        RecordCleanupFailure(i, "CleanupDependencyUnavailable", i.dependency.value);
        return;
      }
      log := log + [DeleteSent(obj.status.id)];
      if i.delete.TookEffect() { remote := remote - {obj.status.id}; }
      if i.delete.Crashed() { return; }
      if !i.delete.Fine? {
        RecordCleanupFailure(i, "CleanupFailed", i.delete.message);
        return;
      }
      completed := RemoveTheFinalizer(i);
    }

    /** `Reconcile`. */
    method Reconcile(i: PassInput) returns (completed: bool)
      requires i.snapshot < |store.versions| && FaithfulReplies(name, remote, i)
      modifies this
      ensures var p := Pass(name, old(remote), old(store), i);
              remote == p.remote && store == p.store && log == old(log) + p.events && completed == p.completed
    {
      hide Live, Deletion, FaithfulReplies;
      var obj := store.versions[i.snapshot];
      var input := i;
      if !obj.deleting && obj.spec.deletion == Delete && !obj.finalizer {
        if !Writable(store, i.snapshot) { return false; }
        if !i.finalizerWrite.TookEffect() { return false; }
        store := store.(versions := store.versions + [obj.(finalizer := true)]);
        if !i.finalizerWrite.Fine? { return false; }
        input := i.(snapshot := i.snapshot + 1);
        SameReplies(name, remote, i, input);
      }
      if obj.deleting {
        completed := ReconcileDeletion(input);
      } else {
        completed := ReconcileLive(input);
      }
    }
  }
}
