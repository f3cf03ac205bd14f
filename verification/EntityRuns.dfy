/**
 Ownership and cleanup of an ID-keyed resource over whole runs: passes on any served version,
 stopping at any call, with spec edits, deletion requests and outside changes of OpenBao.
 */
module EntityRuns {
  import opened Kube
  import opened StringLists
  import opened Conditions
  import opened Entity

  datatype World = World(name: string, remote: Remote, store: Store, log: seq<Event>)

  datatype Action =
    | DoPass(input: PassInput)
    | OutsideWrite(id: string, config: Config)
    | OutsideDelete(id: string)
    | EditSpec(generation: int, spec: Spec)
    | RequestDeletion

  predicate Enabled(w: World, a: Action) {
    match a
    case DoPass(i) => i.snapshot < |w.store.versions| && FaithfulReplies(w.name, w.remote, i)
    case OutsideWrite(id, _) => id != ""
    case OutsideDelete(_) => true
    case EditSpec(_, _) => !w.store.gone && w.store.versions != []
    case RequestDeletion => !w.store.gone && w.store.versions != []
  }

  function PassOf(w: World, i: PassInput): PassResult
    requires Enabled(w, DoPass(i))
  {
    Pass(w.name, w.remote, w.store, i)
  }

  /** Deleting an object without our finalizer removes it at once; otherwise it is only marked. */
  function Step(w: World, a: Action): World
    requires Enabled(w, a)
  {
    match a
    case DoPass(i) => var p := PassOf(w, i); w.(remote := p.remote, store := p.store, log := w.log + p.events)
    case OutsideWrite(id, c) => w.(remote := w.remote[id := c])
    case OutsideDelete(id) => w.(remote := w.remote - {id})
    case EditSpec(g, spec) =>
      w.(store := w.store.(versions := w.store.versions + [Latest(w.store).(generation := g, spec := spec)]))
    case RequestDeletion =>
      if Latest(w.store).finalizer
      then w.(store := w.store.(versions := w.store.versions + [Latest(w.store).(deleting := true)]))
      else w.(store := w.store.(gone := true))
  }

  predicate Runs(w: World, actions: seq<Action>)
    decreases |actions|
  {
    actions == [] || (Enabled(w, actions[0]) && Runs(Step(w, actions[0]), actions[1..]))
  }

  function Run(w: World, actions: seq<Action>): World
    requires Runs(w, actions)
    decreases |actions|
  {
    if actions == [] then w else Run(Step(w, actions[0]), actions[1..])
  }

  // ---------------------------------------------------------------------------
  // Ownership
  // ---------------------------------------------------------------------------

  predicate Acquires(e: Event, id: string) {
    e == Created(id) || (e.Adopted? && e.id == id && e.policy.AllowsAdoption())
  }

  /** The log shows that this resource created `id`, or adopted it while its policy allowed that. */
  predicate Owned(log: seq<Event>, id: string) {
    exists k :: 0 <= k < |log| && Acquires(log[k], id)
  }

  predicate Targets(e: Event, id: string) {
    e == UpdateSent(id) || e == DeleteSent(id)
  }

  /** Every update and delete targets an ID owned by then; every create follows a name lookup that missed. */
  ghost predicate Disciplined(log: seq<Event>) {
    && (forall k, id :: 0 <= k < |log| && Targets(log[k], id) ==> Owned(log[..k], id))
    && (forall k :: 0 <= k < |log| && log[k].CreateSent? ==> k > 0 && log[k - 1].NameAbsent?)
  }

  /** The events of one pass, seen from a version that recorded `id`. */
  ghost predicate PassEvents(id: string, es: seq<Event>) {
    && (forall k, x :: 0 <= k < |es| && Targets(es[k], x) ==> x != "" && (x == id || Owned(es[..k], x)))
    && (forall k :: 0 <= k < |es| && es[k].CreateSent? ==> k > 0 && es[k - 1].NameAbsent?)
  }

  /** Every stored ID was owned, or is the one the pass started from, or was acquired in the pass. */
  ghost predicate Recorded(store: Store, id: string, es: seq<Event>, store': Store) {
    && |store.versions| <= |store'.versions| && store'.versions[..|store.versions|] == store.versions
    && forall k :: |store.versions| <= k < |store'.versions| ==>
         var x := store'.versions[k].status.id; x == "" || x == id || Owned(es, x)
  }

  lemma LiveEvents(name: string, remote: Remote, store: Store, i: PassInput)
    requires i.snapshot < |store.versions| && FaithfulReplies(name, remote, i)
    ensures var p := Live(name, remote, store, i);
            var id := store.versions[i.snapshot].status.id;
            PassEvents(id, p.events) && Recorded(store, id, p.events, p.store)
  {
    hide Failed, Converge, Acquire, FaithfulReplies, Disciplined;
    var obj := store.versions[i.snapshot];
    var id := obj.status.id;
    var p := Live(name, remote, store, i);
    if i.dependency.Some? {
      FailedFacts(remote, store, i, obj.status, Stalled(obj.generation, "DependencyNotReady", i.dependency, i.clock, i.clock), []);
    } else {
      AcquireHasFacts(name, obj.spec, id, remote, i);
      var a := Acquire(name, obj.spec, id, remote, i);
      AcquiredInEvents(id, obj.spec.creation, remote, i, a);
      match a
      case Died(_, _) =>
      case NotBound(x, message, remote', events) =>
        FailedFacts(remote', store, i, obj.status.(id := x), Error(obj.generation, "EntityAcquireFailed", Some(message), i.clock), events);
      case Bound(x, observed, remote', events) =>
        ConvergeFacts(name, remote', store, i, obj.status.(id := x), observed, events);
        if p.events != events {
          UpdateAppended(id, events, x);
        }
        OwnedPrefix(events, p.events, x);
    }
  }

  lemma AcquiredInEvents(id: string, creation: CreationPolicy, remote: Remote, i: PassInput, a: Acquisition)
    requires AcquireFacts(id, creation, remote, i, a)
    ensures PassEvents(id, a.events)
    ensures a.Bound? || a.NotBound? ==> a.id == "" || (a.id == id && a.events == []) || Owned(a.events, a.id)
    ensures a.Bound? ==> a.id != ""
  {
    if a.events == [NameAbsent, CreateSent, Created(i.newID)] {
      assert Acquires(a.events[2], i.newID);
    }
    if a.Bound? && a.events == [Adopted(a.id, creation)] {
      assert Acquires(a.events[0], a.id);
    }
  }

  lemma UpdateAppended(id: string, events: seq<Event>, x: string)
    requires PassEvents(id, events) && x != "" && (x == id || Owned(events, x))
    ensures PassEvents(id, events + [UpdateSent(x)])
  {
    var es := events + [UpdateSent(x)];
    forall k, y | 0 <= k < |es| && Targets(es[k], y) ensures y != "" && (y == id || Owned(es[..k], y)) {
      if k < |events| {
        assert es[k] == events[k] && es[..k] == events[..k];
      } else {
        assert es[..k] == events;
      }
    }
  }

  lemma OwnedPrefix(events: seq<Event>, es: seq<Event>, x: string)
    requires events <= es
    ensures Owned(events, x) ==> Owned(es, x)
  {
    if Owned(events, x) {
      var k :| 0 <= k < |events| && Acquires(events[k], x);
      assert es[k] == events[k];
    }
  }

  lemma DeletionEvents(remote: Remote, store: Store, i: PassInput)
    requires i.snapshot < |store.versions|
    ensures var p := Deletion(remote, store, i);
            var id := store.versions[i.snapshot].status.id;
            && PassEvents(id, p.events) && Recorded(store, id, p.events, p.store)
            && (forall k :: |store.versions| <= k < |p.store.versions| ==>
                  Writable(store, i.snapshot)
                  && p.store.versions[k] == store.versions[i.snapshot].(status := p.store.versions[k].status)
                  && p.store.versions[k].status.id == id)
  {
    hide Conditions.Apply;
  }

  lemma PassEventsHold(name: string, remote: Remote, store: Store, i: PassInput)
    requires i.snapshot < |store.versions| && FaithfulReplies(name, remote, i)
    ensures var p := Pass(name, remote, store, i);
            var id := store.versions[i.snapshot].status.id;
            PassEvents(id, p.events) && Recorded(store, id, p.events, p.store)
  {
    hide Live, Deletion, PassEvents, FaithfulReplies;
    var obj := store.versions[i.snapshot];
    NoEvents(obj.status.id);
    if obj.deleting {
      DeletionEvents(remote, store, i);
    } else if obj.spec.deletion == Delete && !obj.finalizer {
      var store' := store.(versions := store.versions + [obj.(finalizer := true)]);
      var j := i.(snapshot := |store.versions|);
      SameReplies(name, remote, i, j);
      LiveEvents(name, remote, store', j);
      if i.finalizerWrite.Fine? && Writable(store, i.snapshot) {
        var p := Live(name, remote, store', j);
        assert p.store.versions[..|store.versions|] == store'.versions[..|store.versions|] == store.versions;
        assert p.store.versions[|store.versions|] == store'.versions[|store.versions|];
      }
    } else {
      LiveEvents(name, remote, store, i);
    }
  }

  lemma NoEvents(id: string)
    ensures PassEvents(id, [])
  {
  }

  ghost predicate Inv(w: World) {
    && Disciplined(w.log)
    && forall k :: 0 <= k < |w.store.versions| ==>
         w.store.versions[k].status.id == "" || Owned(w.log, w.store.versions[k].status.id)
  }

  lemma LogGrows(log: seq<Event>, id: string, es: seq<Event>)
    requires Disciplined(log) && PassEvents(id, es) && (id == "" || Owned(log, id))
    ensures Disciplined(log + es)
  {
    var all := log + es;
    forall k, x | 0 <= k < |all| && Targets(all[k], x) ensures Owned(all[..k], x) {
      if k < |log| {
        assert all[k] == log[k] && all[..k] == log[..k];
      } else {
        var n := k - |log|;
        assert all[k] == es[n] && all[..k] == log + es[..n];
        OwnedPrefix(log, all[..k], x);
        if x != id {
          var j :| 0 <= j < n && Acquires(es[j], x);
          assert all[..k][|log| + j] == es[j];
        }
      }
    }
    forall k | 0 <= k < |all| && all[k].CreateSent? ensures k > 0 && all[k - 1].NameAbsent? {
      if k < |log| {
        assert log[k].CreateSent?;
      } else {
        assert es[k - |log|].CreateSent?;
      }
    }
  }

  lemma StepKeepsInv(w: World, a: Action)
    requires Inv(w) && Enabled(w, a)
    ensures Inv(Step(w, a)) && w.log <= Step(w, a).log
  {
    hide Pass, FaithfulReplies, Disciplined, PassEvents, Owned;
    var w' := Step(w, a);
    if a.DoPass? {
      var i := a.input;
      var p := PassOf(w, i);
      var id := w.store.versions[i.snapshot].status.id;
      PassEventsHold(w.name, w.remote, w.store, i);
      LogGrows(w.log, id, p.events);
      forall k | 0 <= k < |w'.store.versions|
        ensures w'.store.versions[k].status.id == "" || Owned(w'.log, w'.store.versions[k].status.id)
      {
        var x := w'.store.versions[k].status.id;
        OwnedPrefix(w.log, w'.log, x);
        if k < |w.store.versions| {
          assert w'.store.versions[k] == w.store.versions[k];
        } else {
          OwnedSuffix(w.log, p.events, x);
        }
      }
    }
  }

  lemma OwnedSuffix(log: seq<Event>, es: seq<Event>, x: string)
    ensures Owned(es, x) ==> Owned(log + es, x)
  {
    if Owned(es, x) {
      var k :| 0 <= k < |es| && Acquires(es[k], x);
      assert (log + es)[|log| + k] == es[k];
    }
  }

  lemma {:induction false} RunKeepsInv(w: World, actions: seq<Action>)
    requires Inv(w) && Runs(w, actions)
    ensures Inv(Run(w, actions))
    decreases |actions|
  {
    if actions != [] {
      StepKeepsInv(w, actions[0]);
      RunKeepsInv(Step(w, actions[0]), actions[1..]);
    }
  }

  /** A resource just applied: one version, no recorded ID. */
  predicate Applied(w: World) {
    |w.store.versions| == 1 && !w.store.gone && w.log == [] && w.store.versions[0].status.id == ""
    && !w.store.versions[0].deleting && !w.store.versions[0].finalizer
  }

  /**
   In every run each update and delete sent to OpenBao targets an ID that the log shows, earlier,
   to have been created by this resource or adopted under a policy that allows adoption; and each
   create comes right after a by-name read that found nothing.
   */
  lemma OnlyOwnedTouched(w: World, actions: seq<Action>, k: nat, id: string)
    requires Applied(w) && Runs(w, actions) && k < |Run(w, actions).log|
    ensures Targets(Run(w, actions).log[k], id) ==>
              exists j :: 0 <= j < k && Acquires(Run(w, actions).log[j], id)
    ensures Run(w, actions).log[k].CreateSent? ==> k > 0 && Run(w, actions).log[k - 1].NameAbsent?
  {
    hide Pass, FaithfulReplies, Run, Runs;
    assert Inv(w);
    RunKeepsInv(w, actions);
    var log := Run(w, actions).log;
    if Targets(log[k], id) {
      assert Owned(log[..k], id);
      var j :| 0 <= j < |log[..k]| && Acquires(log[..k][j], id);
      assert Acquires(log[j], id);
    }
  }

  // ---------------------------------------------------------------------------
  // The cleanup gate
  // ---------------------------------------------------------------------------

  /** The deletion policy is Delete on every version so far, and a recorded ID implies the finalizer. */
  ghost predicate Gated(w: World) {
    && w.store.versions != []
    && (forall k :: 0 <= k < |w.store.versions| ==> w.store.versions[k].spec.deletion == Delete)
    && (forall k :: 0 <= k < |w.store.versions| && w.store.versions[k].status.id != "" ==> w.store.versions[k].finalizer)
  }

  predicate StaysDelete(actions: seq<Action>) {
    forall k :: 0 <= k < |actions| && actions[k].EditSpec? ==> actions[k].spec.deletion == Delete
  }

  predicate ReachesOpenBao(e: Event) {
    e.CreateSent? || e.Adopted? || e.UpdateSent?
  }

  /** The live part only appends a version like the one it works on, up to the status. */
  lemma LiveStore(name: string, remote: Remote, store: Store, i: PassInput)
    requires i.snapshot < |store.versions| && FaithfulReplies(name, remote, i)
    ensures exists ids :: Appends(store, i.snapshot, Live(name, remote, store, i).store, ids)
  {
    hide Failed, Converge, Acquire, FaithfulReplies, Appends;
    var obj := store.versions[i.snapshot];
    if i.dependency.Some? {
      FailedFacts(remote, store, i, obj.status, Stalled(obj.generation, "DependencyNotReady", i.dependency, i.clock, i.clock), []);
      assert Appends(store, i.snapshot, Live(name, remote, store, i).store, {obj.status.id});
    } else {
      match Acquire(name, obj.spec, obj.status.id, remote, i)
      case Died(_, _) =>
        UnchangedAppends(store, i.snapshot);
        assert Appends(store, i.snapshot, Live(name, remote, store, i).store, {});
      case NotBound(x, message, remote', events) =>
        FailedFacts(remote', store, i, obj.status.(id := x), Error(obj.generation, "EntityAcquireFailed", Some(message), i.clock), events);
        assert Appends(store, i.snapshot, Live(name, remote, store, i).store, {x});
      case Bound(x, observed, remote', events) =>
        ConvergeFacts(name, remote', store, i, obj.status.(id := x), observed, events);
        assert Appends(store, i.snapshot, Live(name, remote, store, i).store, {x});
    }
  }

  lemma UnchangedAppends(store: Store, snapshot: nat)
    requires snapshot < |store.versions|
    ensures Appends(store, snapshot, store, {})
  {
  }

  /** A stored version identical to `v` up to its status and carrying the finalizer. */
  ghost predicate Armed(store: Store, v: Version) {
    exists k :: 0 <= k < |store.versions| && store.versions[k].finalizer && store.versions[k] == v.(finalizer := true)
  }

  /**
   A pass on a version with policy Delete sends a create, an adoption or an update only after a
   version carrying the finalizer is stored.
   */
  lemma FinalizerBeforeExternalWork(w: World, i: PassInput, k: nat)
    requires Enabled(w, DoPass(i)) && w.store.versions[i.snapshot].spec.deletion == Delete
    requires k < |PassOf(w, i).events| && ReachesOpenBao(PassOf(w, i).events[k])
    ensures Armed(PassOf(w, i).store, w.store.versions[i.snapshot])
  {
    hide Live, FaithfulReplies;
    var obj := w.store.versions[i.snapshot];
    PassEventsHold(w.name, w.remote, w.store, i);
    var p := PassOf(w, i);
    if obj.finalizer {
      assert p.store.versions[i.snapshot] == obj;
    } else {
      var store' := w.store.(versions := w.store.versions + [obj.(finalizer := true)]);
      var j := i.(snapshot := |w.store.versions|);
      SameReplies(w.name, w.remote, i, j);
      LiveEvents(w.name, w.remote, store', j);
      assert p.store.versions[|w.store.versions|] == store'.versions[|w.store.versions|];
    }
  }

  lemma PassKeepsGated(w: World, i: PassInput)
    requires Gated(w) && Enabled(w, DoPass(i))
    ensures Gated(Step(w, DoPass(i)))
  {
    hide Live, Deletion, FaithfulReplies;
    var obj := w.store.versions[i.snapshot];
    if obj.deleting {
      DeletionEvents(w.remote, w.store, i);
    } else {
      var j := if obj.finalizer then i else i.(snapshot := |w.store.versions|);
      var store' := if obj.finalizer then w.store else w.store.(versions := w.store.versions + [obj.(finalizer := true)]);
      SameReplies(w.name, w.remote, i, j);
      LiveStore(w.name, w.remote, store', j);
    }
  }

  /** The action is a pass that sends one call, deleting this entity, and leaves it absent. */
  predicate EntityJustDeleted(w: World, a: Action, id: string)
    requires Enabled(w, a)
  {
    a.DoPass? && PassOf(w, a.input).events == [DeleteSent(id)] && id !in Step(w, a).remote
  }

  /** Kubernetes removes the object only when no recorded entity is left behind in OpenBao. */
  lemma RemovalLeavesNothing(w: World, a: Action)
    requires Gated(w) && Enabled(w, a) && !w.store.gone && Step(w, a).store.gone
    ensures Latest(w.store).status.id == "" || EntityJustDeleted(w, a, Latest(w.store).status.id)
  {
    hide Live, FaithfulReplies, Conditions.Apply;
    if a.DoPass? {
      var i := a.input;
      var obj := w.store.versions[i.snapshot];
      if !obj.deleting {
        var j := if obj.finalizer then i else i.(snapshot := |w.store.versions|);
        var store' := if obj.finalizer then w.store else w.store.(versions := w.store.versions + [obj.(finalizer := true)]);
        SameReplies(w.name, w.remote, i, j);
        LiveStore(w.name, w.remote, store', j);
      }
    }
  }

  lemma {:induction false} RunKeepsGated(w: World, actions: seq<Action>)
    requires Gated(w) && Runs(w, actions) && StaysDelete(actions)
    ensures Gated(Run(w, actions))
    decreases |actions|
  {
    if actions != [] {
      if actions[0].DoPass? { PassKeepsGated(w, actions[0].input); }
      assert forall k :: 0 <= k < |actions[1..]| ==> actions[1..][k] == actions[k + 1];
      RunKeepsGated(Step(w, actions[0]), actions[1..]);
    }
  }

  /**
   While the policy stays Delete, in every run: at the moment the Kubernetes object disappears,
   either no ID is recorded or the same pass has just deleted that entity, or found it gone.
   */
  lemma NoRecordedEntityOutlivesItsObject(w: World, actions: seq<Action>, a: Action)
    requires Applied(w) && w.store.versions[0].spec.deletion == Delete
    requires Runs(w, actions) && StaysDelete(actions)
    requires var w' := Run(w, actions); Enabled(w', a) && !w'.store.gone && Step(w', a).store.gone
    ensures var w' := Run(w, actions);
            && w'.store.versions != []
            && (Latest(w'.store).status.id == "" || EntityJustDeleted(w', a, Latest(w'.store).status.id))
  {
    hide Pass, FaithfulReplies;
    assert Gated(w);
    RunKeepsGated(w, actions);
    RemovalLeavesNothing(Run(w, actions), a);
  }

  /** Deletion passes on the newest version, each stopping wherever its inputs say. */
  predicate DeletionPasses(w: World, inputs: seq<PassInput>)
    decreases |inputs|
  {
    inputs == [] ||
    (&& Enabled(w, DoPass(inputs[0])) && Writable(w.store, inputs[0].snapshot)
     && !Step(w, DoPass(inputs[0])).store.gone && DeletionPasses(Step(w, DoPass(inputs[0])), inputs[1..]))
  }

  function AfterDeletionPasses(w: World, inputs: seq<PassInput>): World
    requires DeletionPasses(w, inputs)
    decreases |inputs|
  {
    if inputs == [] then w else AfterDeletionPasses(Step(w, DoPass(inputs[0])), inputs[1..])
  }

  /** The object is being deleted with this ID recorded. */
  ghost predicate Draining(w: World, id: string) {
    && w.store.versions != [] && !w.store.gone
    && Latest(w.store).deleting && Latest(w.store).finalizer && Latest(w.store).spec.deletion == Delete
    && Latest(w.store).status.id == id && id != ""
  }

  lemma DrainingPass(w: World, i: PassInput, id: string)
    requires Draining(w, id) && Enabled(w, DoPass(i)) && Writable(w.store, i.snapshot)
    ensures var w' := Step(w, DoPass(i));
            && (w'.remote == w.remote || w'.remote == w.remote - {id})
            && (!w'.store.gone ==> Draining(w', id))
            && (i.dependency.None? && i.delete.Fine? && i.finalizerWrite.Fine? ==>
                  w'.store.gone && w'.remote == w.remote - {id})
  {
    hide Conditions.Apply, FaithfulReplies;
  }

  /**
   Cleanup retries are idempotent: whatever deletion passes stopped where, nothing but the recorded
   entity is touched, and the first pass that gets through removes the object with that entity gone.
   */
  lemma {:induction false} CleanupRetries(w: World, inputs: seq<PassInput>, last: PassInput, id: string)
    requires Draining(w, id) && DeletionPasses(w, inputs)
    requires var w' := AfterDeletionPasses(w, inputs); Enabled(w', DoPass(last)) && Writable(w'.store, last.snapshot)
    requires last.dependency.None? && last.delete.Fine? && last.finalizerWrite.Fine?
    ensures var w' := AfterDeletionPasses(w, inputs);
            && (w'.remote == w.remote || w'.remote == w.remote - {id})
            && Step(w', DoPass(last)).store.gone && Step(w', DoPass(last)).remote == w.remote - {id}
    decreases |inputs|
  {
    hide Pass;
    if inputs == [] {
      DrainingPass(w, last, id);
    } else {
      DrainingPass(w, inputs[0], id);
      CleanupRetries(Step(w, DoPass(inputs[0])), inputs[1..], last, id);
    }
  }

  // ---------------------------------------------------------------------------
  // A failed pass can forget the entity it created
  // ---------------------------------------------------------------------------

  /** What the failure path would report when the created entity cannot be read back. */
  function ReadFailure(obj: Version, i: PassInput): Condition
    requires i.getCreated.ErrBefore? || i.getCreated.ErrAfter?
  {
    ErrorCondition(obj.generation, "EntityAcquireFailed", Some(i.getCreated.message), i.clock)
  }

  /**
   The pass gets to storing the ID: the create answered with it, no crash came before the status
   write, and that write landed and was due.
   */
  predicate StoresCreated(store: Store, i: PassInput)
    requires i.snapshot < |store.versions|
  {
    && i.create.Fine? && i.createHasID && !i.getCreated.Crashed()
    && Writable(store, i.snapshot) && i.statusWrite.TookEffect()
    && (i.getCreated.Fine? || NewFailure(store.versions[i.snapshot], i))
  }

  /** The failure is not the one already reported. */
  predicate NewFailure(obj: Version, i: PassInput)
    requires i.getCreated.ErrBefore? || i.getCreated.ErrAfter?
  {
    SetCondition(obj.status.conditions, ReadFailure(obj, i)) != obj.status.conditions
  }

  /** The failure path writes exactly when the stored conditions do not say this very failure. */
  lemma NewFailureIff(obj: Version, i: PassInput)
    requires i.getCreated.ErrBefore? || i.getCreated.ErrAfter?
    ensures NewFailure(obj, i) <==> !AlreadySays(obj.status.conditions, ReadFailure(obj, i))
  {
    var cs, c := obj.status.conditions, ReadFailure(obj, i);
    SetAlreadySaid(cs, c);
    if !AlreadySays(cs, c) {
      SetThenFind(cs, c, READY);
      assert SetCondition(cs, c) != cs;
    }
  }

  predicate Stores(store: Store, id: string) {
    exists k :: 0 <= k < |store.versions| && store.versions[k].status.id == id
  }

  lemma DesiredMatches(name: string, spec: Spec)
    ensures EntityMatches(Desired(name, spec), Desired(name, spec))
  {
    SortIdempotent(spec.policies);
  }

  lemma AcquireCreated(name: string, spec: Spec, id: string, remote: Remote, i: PassInput)
    requires FaithfulReplies(name, remote, i) && Created(i.newID) in Acquire(name, spec, id, remote, i).events
    ensures var a := Acquire(name, spec, id, remote, i);
            && a.remote == remote[i.newID := Desired(name, spec)]
            && (a.Died? <==> i.create.Crashed() || (i.create.Fine? && i.createHasID && i.getCreated.Crashed()))
            && (a.Bound? <==> i.create.Fine? && i.createHasID && i.getCreated.Fine?)
            && (a.Bound? ==> a.id == i.newID && a.observed == Desired(name, spec))
            && (a.NotBound? && i.create.Fine? && i.createHasID ==> a.id == i.newID && a.message == i.getCreated.message)
            && (a.NotBound? && !(i.create.Fine? && i.createHasID) ==> a.id == "")
  {
    hide Desired;
  }

  lemma LiveCreated(name: string, remote: Remote, store: Store, i: PassInput)
    requires i.snapshot < |store.versions| && FaithfulReplies(name, remote, i)
    requires Created(i.newID) in Live(name, remote, store, i).events && !Stores(store, i.newID)
    ensures var p := Live(name, remote, store, i);
            && p.remote == remote[i.newID := Desired(name, store.versions[i.snapshot].spec)]
            && (StoresCreated(store, i) ==> p.store.versions != [] && Latest(p.store).status.id == i.newID)
            && (!StoresCreated(store, i) ==> !Stores(p.store, i.newID))
  {
    var obj := store.versions[i.snapshot];
    var a := Acquire(name, obj.spec, obj.status.id, remote, i);
    assert i.newID != "" && Desired(name, obj.spec).name == name;
    hide Acquire, Desired, EntityMatches, FaithfulReplies, Conditions.Apply, Failed, Finish;
    LiveEventsFromAcquire(name, remote, store, i);
    if i.dependency.None? {
      AcquireCreated(name, obj.spec, obj.status.id, remote, i);
      if a.Bound? {
        DesiredMatches(name, obj.spec);
        CreatedFinish(name, a.remote, store, i, a.observed, a.events);
      } else if a.NotBound? {
        CreatedFailed(a.remote, store, i, a.id, a.message, a.events);
      }
    }
  }

  /** Only `acquire` creates. */
  lemma LiveEventsFromAcquire(name: string, remote: Remote, store: Store, i: PassInput)
    requires i.snapshot < |store.versions| && FaithfulReplies(name, remote, i)
    ensures var obj := store.versions[i.snapshot];
            Created(i.newID) in Live(name, remote, store, i).events ==>
              i.dependency.None? && Created(i.newID) in Acquire(name, obj.spec, obj.status.id, remote, i).events
  {
    hide Acquire, Converge, FaithfulReplies, Failed;
    var obj := store.versions[i.snapshot];
    var a := Acquire(name, obj.spec, obj.status.id, remote, i);
    if i.dependency.Some? {
      FailedFacts(remote, store, i, obj.status, Stalled(obj.generation, "DependencyNotReady", i.dependency, i.clock, i.clock), []);
    } else if a.NotBound? {
      FailedFacts(a.remote, store, i, obj.status.(id := a.id), Error(obj.generation, "EntityAcquireFailed", Some(a.message), i.clock), a.events);
    } else if a.Bound? {
      ConvergeFacts(name, a.remote, store, i, obj.status.(id := a.id), a.observed, a.events);
    }
  }

  /** The status a creating pass stores carries the new ID, none, or the one it had. */
  lemma LiveCreatedIDs(name: string, remote: Remote, store: Store, i: PassInput)
    requires i.snapshot < |store.versions| && FaithfulReplies(name, remote, i)
    requires Created(i.newID) in Live(name, remote, store, i).events
    ensures Appends(store, i.snapshot, Live(name, remote, store, i).store, {"", i.newID, store.versions[i.snapshot].status.id})
  {
    hide Acquire, Converge, FaithfulReplies, Failed;
    var obj := store.versions[i.snapshot];
    var a := Acquire(name, obj.spec, obj.status.id, remote, i);
    LiveEventsFromAcquire(name, remote, store, i);
    if i.dependency.None? {
      AcquireCreated(name, obj.spec, obj.status.id, remote, i);
      if a.NotBound? {
        FailedFacts(a.remote, store, i, obj.status.(id := a.id), Error(obj.generation, "EntityAcquireFailed", Some(a.message), i.clock), a.events);
      } else if a.Bound? {
        ConvergeFacts(name, a.remote, store, i, obj.status.(id := a.id), a.observed, a.events);
      }
    }
  }

  lemma CreatedFinish(name: string, remote: Remote, store: Store, i: PassInput, observed: Config, events: seq<Event>)
    requires i.snapshot < |store.versions| && !Stores(store, i.newID) && observed.name == name
    ensures var p := Finish(name, remote, store, i, store.versions[i.snapshot].status.(id := i.newID), observed, events);
            && p.remote == remote
            && (if Writable(store, i.snapshot) && i.statusWrite.TookEffect()
                then p.store.versions != [] && Latest(p.store).status.id == i.newID
                else !Stores(p.store, i.newID))
  {
    hide Conditions.Apply;
    assert store.versions[i.snapshot].status.id != i.newID;
  }

  lemma CreatedFailed(remote: Remote, store: Store, i: PassInput, id: string, message: string, events: seq<Event>)
    requires i.snapshot < |store.versions| && !Stores(store, i.newID) && i.newID != ""
    requires id == "" || (id == i.newID && (i.getCreated.ErrBefore? || i.getCreated.ErrAfter?) && message == i.getCreated.message)
    ensures var obj := store.versions[i.snapshot];
            var p := Failed(remote, store, i, obj.status.(id := id), Error(obj.generation, "EntityAcquireFailed", Some(message), i.clock), events);
            && p.remote == remote
            && (if id == i.newID && Writable(store, i.snapshot) && i.statusWrite.TookEffect() && NewFailure(obj, i)
                then p.store.versions != [] && Latest(p.store).status.id == i.newID
                else !Stores(p.store, i.newID))
  {
    hide SetCondition;
  }

  /**
   Every pass that creates an entity, whatever it recorded before: under any policies, with the
   finalizer still to be set, after a recorded ID vanished, and wherever it stops. The new ID is
   stored if and only if the create answered with it, the pass lived to its status write, that write
   landed, and the read-back worked or its failure is not the one already reported; the failure path
   compares with a copy of the status that carries the new ID already. Otherwise no version ever
   stores it. OpenBao gives out an ID once.
   */
  lemma CreatedIDRecordedIff(w: World, i: PassInput)
    requires Enabled(w, DoPass(i)) && Created(i.newID) in PassOf(w, i).events && !Stores(w.store, i.newID)
    ensures i.newID in Step(w, DoPass(i)).remote
    ensures Stores(Step(w, DoPass(i)).store, i.newID) <==> StoresCreated(w.store, i)
    ensures StoresCreated(w.store, i) ==>
              Step(w, DoPass(i)).store.versions != [] && Latest(Step(w, DoPass(i)).store).status.id == i.newID
    ensures StoresCreated(w.store, i) <==>
              && i.create.Fine? && i.createHasID && !i.getCreated.Crashed()
              && Writable(w.store, i.snapshot) && i.statusWrite.TookEffect()
              && (i.getCreated.Fine? ||
                  !AlreadySays(w.store.versions[i.snapshot].status.conditions, ReadFailure(w.store.versions[i.snapshot], i)))
  {
    hide Live, FaithfulReplies, SetCondition, Conditions.Apply;
    var obj := w.store.versions[i.snapshot];
    if i.getCreated.ErrBefore? || i.getCreated.ErrAfter? { NewFailureIff(obj, i); }
    if !obj.deleting && obj.spec.deletion == Delete && !obj.finalizer {
      var store' := w.store.(versions := w.store.versions + [obj.(finalizer := true)]);
      var j := i.(snapshot := |w.store.versions|);
      SameReplies(w.name, w.remote, i, j);
      LiveCreated(w.name, w.remote, store', j);
    } else if !obj.deleting {
      LiveCreated(w.name, w.remote, w.store, i);
    }
  }

  // ---------------------------------------------------------------------------
  // Stuck for ever
  // ---------------------------------------------------------------------------

  /** No stored version records an existing entity, none may adopt, and the name is taken. */
  ghost predicate Stuck(w: World) {
    && (exists id :: id in w.remote && w.remote[id].name == w.name)
    && w.store.versions != []
    && forall k :: 0 <= k < |w.store.versions| ==> StuckVersion(w.remote, w.store.versions[k])
  }

  predicate StuckVersion(remote: Remote, v: Version) {
    !v.deleting && (v.status.id == "" || v.status.id !in remote) && !v.spec.creation.AllowsAdoption()
  }

  /** Passes of any kind, and spec edits that do not allow adoption. */
  predicate NoRescue(a: Action) {
    a.DoPass? || (a.EditSpec? && !a.spec.creation.AllowsAdoption())
  }

  /** Every pass over a stuck resource, however stale, sends nothing, never completes and leaves it stuck. */
  lemma StuckPass(w: World, i: PassInput)
    requires Stuck(w) && Enabled(w, DoPass(i))
    ensures PassOf(w, i).events == [] && !PassOf(w, i).completed && PassOf(w, i).remote == w.remote
    ensures Stuck(Step(w, DoPass(i)))
  {
    hide Live, Deletion, FaithfulReplies;
    var obj := w.store.versions[i.snapshot];
    assert StuckVersion(w.remote, obj);
    if obj.spec.deletion == Delete && !obj.finalizer {
      var j := i.(snapshot := |w.store.versions|);
      SameReplies(w.name, w.remote, i, j);
      StuckLive(w.name, w.remote, w.store.(versions := w.store.versions + [obj.(finalizer := true)]), j);
    } else {
      StuckLive(w.name, w.remote, w.store, i);
    }
  }

  lemma StuckLive(name: string, remote: Remote, store: Store, i: PassInput)
    requires i.snapshot < |store.versions| && FaithfulReplies(name, remote, i)
    requires exists id :: id in remote && remote[id].name == name
    requires StuckVersion(remote, store.versions[i.snapshot])
    ensures var p := Live(name, remote, store, i);
            && p.events == [] && !p.completed && p.remote == remote
            && (|| p.store.versions == store.versions
                || (|p.store.versions| == |store.versions| + 1 && p.store.versions[..|store.versions|] == store.versions
                    && StuckVersion(remote, Latest(p.store))))
  {
    hide Conditions.Apply, Converge;
  }

  lemma {:induction false} StuckRun(w: World, actions: seq<Action>)
    requires Stuck(w) && Runs(w, actions) && forall k :: 0 <= k < |actions| ==> NoRescue(actions[k])
    ensures Stuck(Run(w, actions)) && Run(w, actions).remote == w.remote && Run(w, actions).log == w.log
    decreases |actions|
  {
    hide Pass, FaithfulReplies;
    if actions != [] {
      if actions[0].DoPass? { StuckPass(w, actions[0].input); }
      assert forall k :: 0 <= k < |actions[1..]| ==> actions[1..][k] == actions[k + 1];
      StuckRun(Step(w, actions[0]), actions[1..]);
    }
  }

  /** In every such run nothing is ever sent, and after it every further pass fails: stuck for ever. */
  lemma StuckForEver(w: World, actions: seq<Action>, i: PassInput)
    requires Stuck(w) && Runs(w, actions) && forall k :: 0 <= k < |actions| ==> NoRescue(actions[k])
    requires Enabled(Run(w, actions), DoPass(i))
    ensures Run(w, actions).log == w.log && Run(w, actions).remote == w.remote
    ensures var p := PassOf(Run(w, actions), i); !p.completed && p.events == [] && p.remote == w.remote
  {
    hide Pass, FaithfulReplies, Stuck, Runs;
    StuckRun(w, actions);
    StuckPass(Run(w, actions), i);
  }

  /** A pass under policy Create that creates an entity and does not store its ID leaves the resource stuck. */
  lemma ForgottenSticks(w: World, i: PassInput)
    requires Enabled(w, DoPass(i)) && Created(i.newID) in PassOf(w, i).events && !Stores(w.store, i.newID)
    requires forall k :: 0 <= k < |w.store.versions| ==> StuckVersion(w.remote, w.store.versions[k])
    requires !StoresCreated(w.store, i)
    ensures Stuck(Step(w, DoPass(i)))
  {
    hide Live, Deletion, FaithfulReplies, StoresCreated, Desired;
    CreatedIDRecordedIff(w, i);
    var obj := w.store.versions[i.snapshot];
    var w' := Step(w, DoPass(i));
    assert StuckVersion(w.remote, obj);
    assert Desired(w.name, obj.spec).name == w.name by { DesiredName(w.name, obj.spec); }
    if obj.spec.deletion == Delete && !obj.finalizer {
      var j := i.(snapshot := |w.store.versions|);
      var store' := w.store.(versions := w.store.versions + [obj.(finalizer := true)]);
      SameReplies(w.name, w.remote, i, j);
      LiveCreated(w.name, w.remote, store', j);
      LiveCreatedIDs(w.name, w.remote, store', j);
    } else {
      LiveCreated(w.name, w.remote, w.store, i);
      LiveCreatedIDs(w.name, w.remote, w.store, i);
    }
    assert w'.remote == w.remote[i.newID := Desired(w.name, obj.spec)];
    forall k | 0 <= k < |w'.store.versions| ensures StuckVersion(w'.remote, w'.store.versions[k]) {
      assert w'.store.versions[k].status.id != i.newID;
      if k < |w.store.versions| { assert StuckVersion(w.remote, w.store.versions[k]); }
    }
  }

  lemma DesiredName(name: string, spec: Spec)
    ensures Desired(name, spec).name == name
  {
  }
}
