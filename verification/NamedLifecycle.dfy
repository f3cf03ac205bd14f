/**
 `reconcileSystemNamed`, the name-keyed lifecycle shared by mounts, namespaces, quotas and the
 other system resources, for every adapter: `S` is the resource's own status, `M` the server.
 */
module NamedLifecycle {
  import opened Kube
  import opened Conditions
  import opened JsonFields

  /** What `Get` finds; `Nothing` is a reply without an error and without an object. */
  datatype Reply = Absent | Nothing | Found(fields: Fields)

  /** The closures of `systemPlan` that do not depend on the spec. */
  datatype Adapter<!S, !M> = Adapter(
    get: M -> Reply, write: (M, Fields, bool) -> M, acquired: S -> bool, markAcquired: S -> S,
    observe: (S, Fields) -> S, configHash: Fields -> string)

  /** The part of the plan read from the spec; `desired` is `None` when building it fails. */
  datatype Spec = Spec(generation: int, creation: CreationPolicy, desired: Option<Fields>)

  datatype Status<S> = Status(own: S, observedGeneration: int, configHash: string, conditions: seq<Condition>)

  datatype Event =
    | ReadAbsent(policy: CreationPolicy)
    | ReadFound(acquired: bool, policy: CreationPolicy)
    | WriteSent(creating: bool)
    | Recorded

  /** One stored version of the Kubernetes object. */
  datatype Version<S> = Version(spec: Spec, status: Status<S>)

  /** The stored versions, newest last; the caches may serve any of them. */
  datatype World<S, M> = World(remote: M, versions: seq<Version<S>>, log: seq<Event>)

  /** A write that fails may have had any effect, such as enabling a mount without tuning it. */
  datatype PassInput<M> = PassInput(
    snapshot: nat, dependency: Option<string>, get: Fault, write: Fault, afterFailedWrite: M, readBack: Fault, statusWrite: Fault, clock: int)

  datatype Outcome<S, M> = Outcome(world: World<S, M>, completed: bool)

  // ---------------------------------------------------------------------------
  // One pass over an object that is not being deleted
  // ---------------------------------------------------------------------------

  predicate Served<S, M>(w: World<S, M>, i: PassInput<M>) {
    i.snapshot < |w.versions|
  }

  /** `updateStatusIfChanged`: a write is sent only on change and only lands on the newest version. */
  function Persist<S(==), M>(w: World<S, M>, i: PassInput<M>, after: Status<S>): Outcome<S, M>
    requires Served(w, i)
  {
    if after == w.versions[i.snapshot].status then Outcome(w, true)
    else if i.snapshot + 1 != |w.versions| then Outcome(w, false)
    else
      Outcome(if i.statusWrite.TookEffect() then w.(versions := w.versions + [w.versions[i.snapshot].(status := after)]) else w,
              i.statusWrite.Fine?)
  }

  /** The status of the pass after a failure. */
  function Marked<S>(obj: Version<S>, m: Mark): Status<S> {
    obj.status.(observedGeneration := obj.spec.generation, conditions := Conditions.Apply(obj.status.conditions, m))
  }

  /** `systemFailure` and `systemDependencyFailure`. */
  function Fail<S(==), M>(w: World<S, M>, i: PassInput<M>, m: Mark): Outcome<S, M>
    requires Served(w, i)
  {
    Outcome(Persist(w, i, Marked(w.versions[i.snapshot], m)).world, false)
  }

  function FailWith<S(==), M>(w: World<S, M>, i: PassInput<M>, reason: string, message: string): Outcome<S, M>
    requires Served(w, i)
  {
    Fail(w, i, Error(w.versions[i.snapshot].spec.generation, reason, Some(message), i.clock))
  }

  function Completed<S, M>(a: Adapter<S, M>, obj: Version<S>, i: PassInput<M>, fields: Fields): Status<S> {
    Status(a.observe(a.markAcquired(obj.status.own), fields), obj.spec.generation, a.configHash(fields),
           Conditions.Apply(obj.status.conditions,
                            Ready(obj.spec.generation, "OpenBao resource is reconciled", i.clock, i.clock)))
  }

  function Finish<S(==), M>(a: Adapter<S, M>, w: World<S, M>, i: PassInput<M>, reply: Reply): Outcome<S, M>
    requires !reply.Absent? && Served(w, i)
  {
    if reply.Nothing? then FailWith(w, i, "InvalidOpenBaoResponse", "no resource")
    else
      var stored := Persist(w, i, Completed(a, w.versions[i.snapshot], i, reply.fields));
      if |stored.world.versions| > |w.versions| then stored.(world := stored.world.(log := w.log + [Recorded]))
      else stored
  }

  function Converge<S(==), M>(a: Adapter<S, M>, w: World<S, M>, i: PassInput<M>, reply: Reply, desired: Fields): Outcome<S, M>
    requires Served(w, i)
  {
    if reply.Found? && FieldsMatch(desired, reply.fields, {}) then Finish(a, w, i, reply)
    else
      var remote := if i.write.Fine? then a.write(w.remote, desired, reply.Absent?) else i.afterFailedWrite;
      var w' := w.(remote := remote, log := w.log + [WriteSent(reply.Absent?)]);
      if i.write.Crashed() then Outcome(w', false)
      else if !i.write.Fine? then FailWith(w', i, "OpenBaoWriteFailed", i.write.message)
      else if i.readBack.Crashed() then Outcome(w', false)
      else if !i.readBack.Fine? then FailWith(w', i, "OpenBaoReadFailed", i.readBack.message)
      else if a.get(remote).Absent? then FailWith(w', i, "OpenBaoReadFailed", "not found")
      else Finish(a, w', i, a.get(remote))
  }

  function ReadEvent<S, M>(a: Adapter<S, M>, remote: M, obj: Version<S>): Event {
    if a.get(remote).Absent? then ReadAbsent(obj.spec.creation) else ReadFound(a.acquired(obj.status.own), obj.spec.creation)
  }

  /** The gate before any write: absent needs a policy to create; present, an acquisition or a policy to adopt. */
  predicate Permitted(read: Event) {
    match read
    case ReadAbsent(policy) => policy.AllowsCreation()
    case ReadFound(acquired, policy) => acquired || policy.AllowsAdoption()
    case WriteSent(_) => false
    case Recorded => false
  }

  function Pass<S(==), M>(a: Adapter<S, M>, w: World<S, M>, i: PassInput<M>): Outcome<S, M>
    requires Served(w, i)
  {
    var obj := w.versions[i.snapshot];
    if i.dependency.Some? then
      Fail(w, i, Stalled(obj.spec.generation, "DependencyNotReady", i.dependency, i.clock, i.clock))
    else if i.get.Crashed() then Outcome(w, false)
    else if !i.get.Fine? then FailWith(w, i, "OpenBaoReadFailed", i.get.message)
    else
      var read := ReadEvent(a, w.remote, obj);
      var w' := w.(log := w.log + [read]);
      if !Permitted(read) then
        FailWith(w', i, "OpenBaoAcquireFailed", if read.ReadAbsent? then "does not exist" else "already exists")
      else if obj.spec.desired.None? then FailWith(w', i, "InvalidOpenBaoSpec", "invalid spec")
      else Converge(a, w', i, a.get(w.remote), obj.spec.desired.value)
  }

  // ---------------------------------------------------------------------------
  // The controller, updating server and store step by step
  // ---------------------------------------------------------------------------

  class NamedResource<S(==), M> {
    const adapter: Adapter<S, M>
    var remote: M
    var versions: seq<Version<S>>
    var log: seq<Event>

    function Contents(): World<S, M>
      reads this
    {
      World(remote, versions, log)
    }

    constructor (adapter: Adapter<S, M>, remote: M, versions: seq<Version<S>>)
      ensures this.adapter == adapter && Contents() == World(remote, versions, [])
    {
      this.adapter, this.remote, this.versions, this.log := adapter, remote, versions, [];
    }

    method UpdateStatus(i: PassInput<M>, after: Status<S>) returns (ok: bool)
      requires Served(Contents(), i)
      modifies this`versions
      ensures Persist(old(Contents()), i, after) == Outcome(Contents(), ok)
    {
      if after == versions[i.snapshot].status { return true; }
      if i.snapshot + 1 != |versions| { return false; }
      if i.statusWrite.TookEffect() { versions := versions + [versions[i.snapshot].(status := after)]; }
      ok := i.statusWrite.Fine?;
    }

    /** Marks the failure in the edited status and tries to store it. */
    method Failure(i: PassInput<M>, status: Status<S>, m: Mark)
      requires Served(Contents(), i)
      requires status == versions[i.snapshot].status.(observedGeneration := versions[i.snapshot].spec.generation)
      modifies this`versions
      ensures Fail(old(Contents()), i, m) == Outcome(Contents(), false)
    {
      var _ := UpdateStatus(i, status.(conditions := Conditions.Apply(status.conditions, m)));
    }

    method Reconcile(i: PassInput<M>) returns (completed: bool)
      requires Served(Contents(), i)
      modifies this
      ensures Pass(adapter, old(Contents()), i) == Outcome(Contents(), completed)
    {
      hide Conditions.Apply, Fail, Converge;
      completed := false;
      var obj := versions[i.snapshot];
      var g := obj.spec.generation;
      var status := obj.status.(observedGeneration := g);
      if i.dependency.Some? {
        Failure(i, status, Stalled(g, "DependencyNotReady", i.dependency, i.clock, i.clock));
        return;
      }
      if i.get.Crashed() { return; }
      if !i.get.Fine? {
        Failure(i, status, Error(g, "OpenBaoReadFailed", Some(i.get.message), i.clock));
        return;
      }
      var observed := adapter.get(remote);
      var created := false;
      if observed.Absent? {
        log := log + [ReadAbsent(obj.spec.creation)];
        if !obj.spec.creation.AllowsCreation() {
          Failure(i, status, Error(g, "OpenBaoAcquireFailed", Some("does not exist"), i.clock));
          return;
        }
        created := true;
      } else {
        log := log + [ReadFound(adapter.acquired(status.own), obj.spec.creation)];
        if !adapter.acquired(status.own) && !obj.spec.creation.AllowsAdoption() {
          Failure(i, status, Error(g, "OpenBaoAcquireFailed", Some("already exists"), i.clock));
          return;
        }
      }
      if obj.spec.desired.None? {
        Failure(i, status, Error(g, "InvalidOpenBaoSpec", Some("invalid spec"), i.clock));
        return;
      }
      completed := Correct(i, status, observed, created, obj.spec.desired.value);
    }

    /** From the comparison of fields to the status write. */
    method Correct(i: PassInput<M>, status: Status<S>, found: Reply, created: bool, desired: Fields) returns (completed: bool)
      requires Served(Contents(), i) && created == found.Absent?
      requires status == versions[i.snapshot].status.(observedGeneration := versions[i.snapshot].spec.generation)
      modifies this
      ensures Converge(adapter, old(Contents()), i, found, desired) == Outcome(Contents(), completed)
    {
      hide Conditions.Apply, FieldsMatch, Fail, Finish;
      completed := false;
      var g := versions[i.snapshot].spec.generation;
      var observed := found;
      var matching := false;
      if observed.Found? { matching := DesiredFieldsMatch(desired, observed.fields, {}); }
      if created || observed.Nothing? || !matching {
        log := log + [WriteSent(created)];
        remote := if i.write.Fine? then adapter.write(remote, desired, created) else i.afterFailedWrite;
        if i.write.Crashed() { return; }
        if !i.write.Fine? {
          Failure(i, status, Error(g, "OpenBaoWriteFailed", Some(i.write.message), i.clock));
          return;
        }
        if i.readBack.Crashed() { return; }
        if !i.readBack.Fine? {
          Failure(i, status, Error(g, "OpenBaoReadFailed", Some(i.readBack.message), i.clock));
          return;
        }
        observed := adapter.get(remote);
        if observed.Absent? {
          Failure(i, status, Error(g, "OpenBaoReadFailed", Some("not found"), i.clock));
          return;
        }
      }
      completed := Complete(i, status, observed);
    }

    /** Marks the resource acquired and ready and stores the status. */
    method Complete(i: PassInput<M>, status: Status<S>, observed: Reply) returns (completed: bool)
      requires Served(Contents(), i) && !observed.Absent?
      requires status == versions[i.snapshot].status.(observedGeneration := versions[i.snapshot].spec.generation)
      modifies this
      ensures Finish(adapter, old(Contents()), i, observed) == Outcome(Contents(), completed)
    {
      hide Conditions.Apply;
      completed := false;
      var g := versions[i.snapshot].spec.generation;
      if observed.Nothing? {
        Failure(i, status, Error(g, "InvalidOpenBaoResponse", Some("no resource"), i.clock));
        return;
      }
      var after := status.(own := adapter.markAcquired(status.own));
      after := after.(own := adapter.observe(after.own, observed.fields));
      after := after.(configHash := adapter.configHash(observed.fields));
      after := after.(conditions := Conditions.Apply(after.conditions, Ready(g, "OpenBao resource is reconciled", i.clock, i.clock)));
      var before := |versions|;
      completed := UpdateStatus(i, after);
      if |versions| > before { log := log + [Recorded]; }
    }
  }

  // ---------------------------------------------------------------------------
  // Whole runs
  // ---------------------------------------------------------------------------

  datatype Action<M> =
    | DoPass(input: PassInput<M>)
    | EditSpec(spec: Spec)
    | OutsideChange(remote: M)

  predicate Enabled<S, M>(w: World<S, M>, action: Action<M>) {
    if action.DoPass? then Served(w, action.input) else w.versions != []
  }

  function Latest<S, M>(w: World<S, M>): Version<S>
    requires w.versions != []
  {
    w.versions[|w.versions| - 1]
  }

  function Step<S(==), M>(a: Adapter<S, M>, w: World<S, M>, action: Action<M>): World<S, M>
    requires Enabled(w, action)
  {
    match action
    case DoPass(i) => Pass(a, w, i).world
    case EditSpec(spec) => w.(versions := w.versions + [Latest(w).(spec := spec)])
    case OutsideChange(remote) => w.(remote := remote)
  }

  predicate Runs<S(==), M>(a: Adapter<S, M>, w: World<S, M>, actions: seq<Action<M>>)
    decreases |actions|
  {
    actions == [] || (Enabled(w, actions[0]) && Runs(a, Step(a, w, actions[0]), actions[1..]))
  }

  function Run<S(==), M>(a: Adapter<S, M>, w: World<S, M>, actions: seq<Action<M>>): World<S, M>
    requires Runs(a, w, actions)
    decreases |actions|
  {
    if actions == [] then w else Run(a, Step(a, w, actions[0]), actions[1..])
  }

  /** The read that starts a claim to the resource: it was missing, or the policy let us adopt it. */
  predicate Claims(e: Event) {
    (e.ReadAbsent? && e.policy.AllowsCreation()) || (e.ReadFound? && e.policy.AllowsAdoption())
  }

  ghost predicate Claimed(log: seq<Event>) {
    exists j :: 0 <= j < |log| && Claims(log[j])
  }

  ghost predicate WasRecorded(log: seq<Event>) {
    exists j :: 0 <= j < |log| && log[j].Recorded?
  }

  /** A write right after its own read, which found nothing, or was allowed to adopt, or had a record to rely on. */
  ghost predicate WriteJustified(log: seq<Event>, k: nat)
    requires k < |log|
  {
    log[k].WriteSent? ==>
      && k > 0 && (log[k].creating <==> log[k - 1].ReadAbsent?)
      && (Claims(log[k - 1]) || (log[k - 1].ReadFound? && WasRecorded(log[..k - 1])))
  }

  /** The same, traced back to the start: whatever was written or recorded was once missing or adoptable. */
  ghost predicate Rooted(log: seq<Event>, k: nat)
    requires k < |log|
  {
    log[k].WriteSent? || log[k].Recorded? ==> Claimed(log[..k])
  }

  ghost predicate Inv<S(!new), M(!new)>(a: Adapter<S, M>, w: World<S, M>) {
    && (forall v: nat :: v < |w.versions| && a.acquired(w.versions[v].status.own) ==> WasRecorded(w.log) && Claimed(w.log))
    && (forall k: nat :: k < |w.log| ==> WriteJustified(w.log, k) && Rooted(w.log, k))
  }

  /** The log a pass appends: nothing, or its read and then at most one write and one record. */
  ghost predicate PassEvents(read: Event, es: seq<Event>) {
    var creating := WriteSent(read.ReadAbsent?);
    || es == [] || es == [read]
    || (Permitted(read) && (es == [read, Recorded] || es == [read, creating] || es == [read, creating, Recorded]))
  }

  /** What a part of a pass appended: the own status in a new version differs only if that was recorded. */
  ghost predicate Appended<S, M>(w: World<S, M>, i: PassInput<M>, es: seq<Event>, w': World<S, M>)
    requires Served(w, i)
  {
    && w'.log == w.log + es
    && (|| w'.versions == w.versions
        || (&& i.snapshot + 1 == |w.versions| && |w'.versions| == |w.versions| + 1
            && w'.versions[..|w.versions|] == w.versions && Latest(w').spec == Latest(w).spec
            && (Latest(w').status.own == Latest(w).status.own || (es != [] && es[|es| - 1] == Recorded))))
  }

  lemma FailAppends<S, M>(w: World<S, M>, i: PassInput<M>, m: Mark)
    requires Served(w, i)
    ensures Appended(w, i, [], Fail(w, i, m).world) && Fail(w, i, m).world.remote == w.remote
  {
    hide Conditions.Apply;
    assert w.log + [] == w.log;
  }

  lemma FinishAppends<S, M>(a: Adapter<S, M>, w: World<S, M>, i: PassInput<M>, reply: Reply) returns (es: seq<Event>)
    requires !reply.Absent? && Served(w, i)
    ensures Appended(w, i, es, Finish(a, w, i, reply).world) && (es == [] || es == [Recorded])
  {
    hide Conditions.Apply, Completed;
    var versions := Finish(a, w, i, reply).world.versions;
    assert w.log + [] == w.log;
    es := if reply.Found? && |versions| > |w.versions| then [Recorded] else [];
  }

  lemma ConvergeAppends<S, M>(a: Adapter<S, M>, w: World<S, M>, i: PassInput<M>, reply: Reply, desired: Fields) returns (es: seq<Event>)
    requires Served(w, i)
    ensures Appended(w, i, es, Converge(a, w, i, reply, desired).world)
    ensures es == [] || es == [Recorded] || es == [WriteSent(reply.Absent?)] || es == [WriteSent(reply.Absent?), Recorded]
  {
    hide Conditions.Apply, FieldsMatch, Finish, Fail;
    if reply.Found? && FieldsMatch(desired, reply.fields, {}) {
      es := FinishAppends(a, w, i, reply);
      return;
    }
    var write := WriteSent(reply.Absent?);
    es := [write];
    var g := w.versions[i.snapshot].spec.generation;
    var remote := if i.write.Fine? then a.write(w.remote, desired, reply.Absent?) else i.afterFailedWrite;
    var w' := w.(remote := remote, log := w.log + [write]);
    assert w'.log + [] == w.log + [write];
    if i.write.ErrBefore? || i.write.ErrAfter? {
      FailAppends(w', i, Error(g, "OpenBaoWriteFailed", Some(i.write.message), i.clock));
    } else if i.write.Fine? && (i.readBack.ErrBefore? || i.readBack.ErrAfter?) {
      FailAppends(w', i, Error(g, "OpenBaoReadFailed", Some(i.readBack.message), i.clock));
    } else if i.write.Fine? && i.readBack.Fine? {
      if a.get(remote).Absent? {
        FailAppends(w', i, Error(g, "OpenBaoReadFailed", Some("not found"), i.clock));
      } else {
        var more := FinishAppends(a, w', i, a.get(remote));
        es := [write] + more;
        assert w.log + es == w'.log + more;
      }
    }
  }

  lemma PassAppends<S, M>(a: Adapter<S, M>, w: World<S, M>, i: PassInput<M>) returns (es: seq<Event>)
    requires Served(w, i)
    ensures Appended(w, i, es, Pass(a, w, i).world)
    ensures PassEvents(ReadEvent(a, w.remote, w.versions[i.snapshot]), es)
  {
    hide Conditions.Apply, FieldsMatch, Converge, Fail;
    es := [];
    assert w.log + [] == w.log;
    var obj := w.versions[i.snapshot];
    var g := obj.spec.generation;
    if i.dependency.Some? {
      FailAppends(w, i, Stalled(g, "DependencyNotReady", i.dependency, i.clock, i.clock));
    } else if i.get.ErrBefore? || i.get.ErrAfter? {
      FailAppends(w, i, Error(g, "OpenBaoReadFailed", Some(i.get.message), i.clock));
    } else if i.get.Fine? {
      var read := ReadEvent(a, w.remote, obj);
      es := [read];
      var w' := w.(log := w.log + [read]);
      assert w'.log + [] == w.log + [read];
      if !Permitted(read) {
        FailAppends(w', i, Error(g, "OpenBaoAcquireFailed", Some(if read.ReadAbsent? then "does not exist" else "already exists"), i.clock));
      } else if obj.spec.desired.None? {
        FailAppends(w', i, Error(g, "InvalidOpenBaoSpec", Some("invalid spec"), i.clock));
      } else {
        var more := ConvergeAppends(a, w', i, a.get(w.remote), obj.spec.desired.value);
        es := [read] + more;
        assert w.log + es == w'.log + more;
      }
    }
  }

  lemma WasRecordedLater(log: seq<Event>, es: seq<Event>)
    ensures WasRecorded(log) || Recorded in es ==> WasRecorded(log + es)
  {
    if WasRecorded(log) {
      var j :| 0 <= j < |log| && log[j].Recorded?;
      assert (log + es)[j] == log[j];
    } else if Recorded in es {
      var j :| 0 <= j < |es| && es[j] == Recorded;
      assert (log + es)[|log| + j] == es[j];
    }
  }

  lemma ClaimedLater(log: seq<Event>, es: seq<Event>)
    ensures Claimed(log) ==> Claimed(log + es)
    ensures es != [] && Claims(es[0]) ==> Claimed(log + es)
  {
    if Claimed(log) {
      var j :| 0 <= j < |log| && Claims(log[j]);
      assert (log + es)[j] == log[j];
    }
    if es != [] {
      assert (log + es)[|log|] == es[0];
    }
  }

  lemma LogGrows(log: seq<Event>, read: Event, es: seq<Event>, acquired: bool, k: nat)
    requires PassEvents(read, es) && (read.ReadAbsent? || (read.ReadFound? && read.acquired == acquired))
    requires acquired ==> WasRecorded(log) && Claimed(log)
    requires forall n: nat :: n < |log| ==> WriteJustified(log, n) && Rooted(log, n)
    requires k < |log + es|
    ensures WriteJustified(log + es, k) && Rooted(log + es, k)
  {
    var all := log + es;
    if k < |log| {
      assert all[..k] == log[..k] && all[k] == log[k];
      assert WriteJustified(log, k) && Rooted(log, k);
      if k > 0 {
        assert all[k - 1] == log[k - 1] && all[..k - 1] == log[..k - 1];
      }
    } else if k > |log| {
      assert all[..k] == log + es[..k - |log|];
      assert es[..k - |log|][0] == read;
      ClaimedLater(log, es[..k - |log|]);
      if k == |log| + 1 {
        assert all[..k - 1] == log && all[k - 1] == read;
      }
    }
  }

  lemma StepKeepsInv<S(!new), M(!new)>(a: Adapter<S, M>, w: World<S, M>, action: Action<M>)
    requires Inv(a, w) && Enabled(w, action)
    ensures Inv(a, Step(a, w, action))
  {
    hide Pass, WriteJustified, Rooted, PassEvents;
    if action.DoPass? {
      var i := action.input;
      var es := PassAppends(a, w, i);
      var read := ReadEvent(a, w.remote, w.versions[i.snapshot]);
      var acquired := a.acquired(w.versions[i.snapshot].status.own);
      forall k: nat | k < |w.log + es| ensures WriteJustified(w.log + es, k) && Rooted(w.log + es, k) {
        LogGrows(w.log, read, es, acquired, k);
      }
      WasRecordedLater(w.log, es);
      RecordedMeansClaimed(w.log, read, es, acquired);
      ClaimedLater(w.log, es);
      var w' := Step(a, w, action);
      forall v: nat | v < |w'.versions| && a.acquired(w'.versions[v].status.own)
        ensures WasRecorded(w'.log) && Claimed(w'.log)
      {
        if v < |w.versions| { assert w'.versions[v] == w.versions[v]; }
      }
    }
  }

  lemma RecordedMeansClaimed(log: seq<Event>, read: Event, es: seq<Event>, acquired: bool)
    requires PassEvents(read, es) && (read.ReadAbsent? || (read.ReadFound? && read.acquired == acquired))
    requires acquired ==> Claimed(log)
    ensures Recorded in es ==> Claimed(log + es)
  {
    ClaimedLater(log, es);
  }

  lemma {:induction false} RunKeepsInv<S(!new), M(!new)>(a: Adapter<S, M>, w: World<S, M>, actions: seq<Action<M>>)
    requires Inv(a, w) && Runs(a, w, actions)
    ensures Inv(a, Run(a, w, actions))
    decreases |actions|
  {
    hide Step, Inv, Enabled;
    if actions != [] {
      StepKeepsInv(a, w, actions[0]);
      RunKeepsInv(a, Step(a, w, actions[0]), actions[1..]);
    }
  }

  /**
   For every adapter and every run, with passes over any served version, spec edits, outside
   changes, failures and crashes: each write follows, in its own pass, a read that found nothing or
   found something it may adopt, or relies on an acquisition recorded earlier; and before any write
   or record there was such a read.
   */
  lemma EveryWriteJustified<S(!new), M(!new)>(a: Adapter<S, M>, w: World<S, M>, actions: seq<Action<M>>, k: nat)
    requires w.log == [] && forall v: nat :: v < |w.versions| ==> !a.acquired(w.versions[v].status.own)
    requires Runs(a, w, actions) && k < |Run(a, w, actions).log|
    ensures WriteJustified(Run(a, w, actions).log, k) && Rooted(Run(a, w, actions).log, k)
  {
    hide Step, Enabled, WriteJustified, Rooted;
    RunKeepsInv(a, w, actions);
  }

  // ---------------------------------------------------------------------------
  // Fixed point
  // ---------------------------------------------------------------------------

  /** After a write, `Get` agrees with the desired fields. */
  ghost predicate WriteIsRead<S(!new), M(!new)>(a: Adapter<S, M>, desired: Fields) {
    forall m, creating ::
      a.get(a.write(m, desired, creating)).Found? && FieldsMatch(desired, a.get(a.write(m, desired, creating)).fields, {})
  }

  ghost predicate CompletionAcquires<S(!new), M>(a: Adapter<S, M>) {
    forall s, fields :: a.acquired(a.observe(a.markAcquired(s), fields))
  }

  predicate Agrees<S, M>(a: Adapter<S, M>, remote: M, desired: Fields) {
    a.get(remote).Found? && FieldsMatch(desired, a.get(remote).fields, {})
  }

  /** A version that asks for these fields and has the acquisition recorded. */
  predicate Holds<S, M>(a: Adapter<S, M>, v: Version<S>, desired: Fields) {
    v.spec.desired == Some(desired) && a.acquired(v.status.own)
  }

  /** The server agrees with the fields that every version from `first` on asks for, all acquired. */
  predicate Settled<S, M>(a: Adapter<S, M>, w: World<S, M>, first: nat, desired: Fields) {
    && first < |w.versions| && Agrees(a, w.remote, desired)
    && forall k :: first <= k < |w.versions| ==> Holds(a, w.versions[k], desired)
  }

  lemma FinishedHolds<S(!new), M(!new)>(a: Adapter<S, M>, w: World<S, M>, i: PassInput<M>, reply: Reply, desired: Fields)
    requires Served(w, i) && w.versions[i.snapshot].spec.desired == Some(desired) && CompletionAcquires(a)
    requires !reply.Absent? && Finish(a, w, i, reply).completed
    ensures var w' := Finish(a, w, i, reply).world;
            && w'.remote == w.remote
            && (|| (w'.versions == w.versions && Holds(a, w.versions[i.snapshot], desired))
                || (i.snapshot + 1 == |w.versions| && |w'.versions| == |w.versions| + 1 && Holds(a, Latest(w'), desired)))
  {
    hide Conditions.Apply;
  }

  /**
   A completed pass, over whichever version: the server agrees with what that version asks for, and
   that version, or the one the pass stored on top of it, has the acquisition recorded. If it read
   the newest version, the resource is settled.
   */
  lemma CompletedPassSettles<S(!new), M(!new)>(a: Adapter<S, M>, w: World<S, M>, i: PassInput<M>, desired: Fields)
    requires Served(w, i) && w.versions[i.snapshot].spec.desired == Some(desired)
    requires WriteIsRead(a, desired) && CompletionAcquires(a)
    requires Pass(a, w, i).completed
    ensures var w' := Pass(a, w, i).world;
            && Agrees(a, w'.remote, desired)
            && (Holds(a, w.versions[i.snapshot], desired) || (w'.versions != [] && Holds(a, Latest(w'), desired)))
            && (i.snapshot + 1 == |w.versions| ==> Settled(a, w', |w'.versions| - 1, desired))
  {
    hide Conditions.Apply, FieldsMatch, Finish, Persist, Holds;
    var read := ReadEvent(a, w.remote, w.versions[i.snapshot]);
    var w1 := w.(log := w.log + [read]);
    if Agrees(a, w.remote, desired) {
      FinishedHolds(a, w1, i, a.get(w.remote), desired);
    } else {
      var creating := a.get(w.remote).Absent?;
      var remote := a.write(w.remote, desired, creating);
      FinishedHolds(a, w1.(remote := remote, log := w1.log + [WriteSent(creating)]), i, a.get(remote), desired);
    }
  }

  /** Passes over versions from `first` on, with any faults, and spec edits that keep the desired fields. */
  predicate KeepsDesired<M>(action: Action<M>, first: nat, desired: Fields) {
    (action.DoPass? && first <= action.input.snapshot) || (action.EditSpec? && action.spec.desired == Some(desired))
  }

  /** The log grew without a write. */
  predicate NoneWritten<S, M>(w: World<S, M>, w': World<S, M>) {
    |w.log| <= |w'.log| && forall k :: |w.log| <= k < |w'.log| ==> !w'.log[k].WriteSent?
  }

  lemma SettledPass<S(!new), M(!new)>(a: Adapter<S, M>, w: World<S, M>, i: PassInput<M>, first: nat, desired: Fields)
    requires Settled(a, w, first, desired) && Served(w, i) && first <= i.snapshot && CompletionAcquires(a)
    ensures var w' := Pass(a, w, i).world;
            && Settled(a, w', first, desired) && w'.remote == w.remote && NoneWritten(w, w')
  {
    hide Conditions.Apply, FieldsMatch;
    assert Holds(a, w.versions[i.snapshot], desired);
  }

  /**
   A completed pass is a fixed point: if writing makes `Get` agree and completing records the
   acquisition, no later pass over the settled versions writes anything until the desired fields or
   the server change, whatever fails in between and whatever the policy becomes.
   */
  lemma {:induction false} NothingWrittenOnceSettled<S(!new), M(!new)>(a: Adapter<S, M>, w: World<S, M>, first: nat, desired: Fields, actions: seq<Action<M>>)
    requires Settled(a, w, first, desired) && CompletionAcquires(a) && Runs(a, w, actions)
    requires forall k :: 0 <= k < |actions| ==> KeepsDesired(actions[k], first, desired)
    ensures var w' := Run(a, w, actions);
            && Settled(a, w', first, desired) && w'.remote == w.remote && NoneWritten(w, w')
    decreases |actions|
  {
    hide Pass, CompletionAcquires, Agrees;
    if actions != [] {
      var w1 := Step(a, w, actions[0]);
      if actions[0].DoPass? { SettledPass(a, w, actions[0].input, first, desired); }
      assert forall k :: 0 <= k < |actions[1..]| ==> actions[1..][k] == actions[k + 1];
      NothingWrittenOnceSettled(a, w1, first, desired, actions[1..]);
      LogsExtend(a, w1, actions[1..]);
    }
  }

  lemma {:induction false} LogsExtend<S, M>(a: Adapter<S, M>, w: World<S, M>, actions: seq<Action<M>>)
    requires Runs(a, w, actions)
    ensures w.log <= Run(a, w, actions).log
    decreases |actions|
  {
    hide Pass;
    if actions != [] {
      if actions[0].DoPass? { var _ := PassAppends(a, w, actions[0].input); }
      LogsExtend(a, Step(a, w, actions[0]), actions[1..]);
    }
  }

  /**
   An adapter whose `Acquired` is constantly false, as for the rotation configurations, can never
   complete a pass under policy Create once the object exists, nor correct its drift.
   */
  lemma NeverAcquiredNeverCompletes<S, M>(a: Adapter<S, M>, w: World<S, M>, i: PassInput<M>)
    requires Served(w, i) && !a.acquired(w.versions[i.snapshot].status.own)
    requires w.versions[i.snapshot].spec.creation == Create && !a.get(w.remote).Absent?
    ensures !Pass(a, w, i).completed && Pass(a, w, i).world.remote == w.remote
    ensures forall k :: 0 <= k < |Pass(a, w, i).world.versions| && k >= |w.versions| ==>
              Pass(a, w, i).world.versions[k].status.own == w.versions[i.snapshot].status.own
  {
    hide Conditions.Apply;
  }

  // ---------------------------------------------------------------------------
  // When a pass must write, and when it must complete
  // ---------------------------------------------------------------------------

  /** What `Get` finds holds every desired field with the desired encoding. */
  ghost predicate HasFields<S, M>(a: Adapter<S, M>, remote: M, desired: Fields) {
    && a.get(remote).Found?
    && forall k :: k in desired ==> k in a.get(remote).fields && desired[k].Json? && a.get(remote).fields[k] == desired[k]
  }

  lemma AgreesIff<S, M>(a: Adapter<S, M>, remote: M, desired: Fields)
    ensures Agrees(a, remote, desired) <==> HasFields(a, remote, desired)
  {
    if HasFields(a, remote, desired) {
      forall k | k in desired ensures JsonEqual(desired[k], a.get(remote).fields[k]) {
        assert a.get(remote).fields[k] == desired[k];
      }
    }
  }

  /** The policy and the record let the pass go on from what it found. */
  predicate MayProceed<S, M>(a: Adapter<S, M>, remote: M, obj: Version<S>) {
    if a.get(remote).Absent? then obj.spec.creation != Adopt
    else a.acquired(obj.status.own) || obj.spec.creation != Create
  }

  predicate NothingFails<M>(i: PassInput<M>) {
    i.dependency.None? && i.get.Fine? && i.write.Fine? && i.readBack.Fine? && i.statusWrite.Fine?
  }

  /**
   A pass whose calls succeed and whose spec is valid: it writes exactly if it may proceed and the
   object is missing or lacks a desired field, and then it writes the desired fields and says
   whether it is creating.
   */
  lemma WritesExactly<S, M>(a: Adapter<S, M>, w: World<S, M>, i: PassInput<M>, desired: Fields)
    requires Served(w, i) && NothingFails(i) && w.versions[i.snapshot].spec.desired == Some(desired)
    ensures var w' := Pass(a, w, i).world;
            var due := MayProceed(a, w.remote, w.versions[i.snapshot]) && !HasFields(a, w.remote, desired);
            && w'.remote == (if due then a.write(w.remote, desired, a.get(w.remote).Absent?) else w.remote)
            && w.log <= w'.log
            && (WriteSent(a.get(w.remote).Absent?) in w'.log[|w.log|..] <==> due)
  {
    hide Conditions.Apply, FieldsMatch, HasFields, Finish, Fail;
    AgreesIff(a, w.remote, desired);
    var es := PassAppends(a, w, i);
    var read := ReadEvent(a, w.remote, w.versions[i.snapshot]);
    var w1 := w.(log := w.log + [read]);
    assert (w.log + es)[|w.log|..] == es;
    if Permitted(read) {
      ConvergeWrites(a, w1, i, a.get(w.remote), desired);
    } else {
      var m := Error(w.versions[i.snapshot].spec.generation, "OpenBaoAcquireFailed",
                     Some(if read.ReadAbsent? then "does not exist" else "already exists"), i.clock);
      FailAppends(w1, i, m);
      assert |es| == 1;
    }
  }

  lemma ConvergeWrites<S, M>(a: Adapter<S, M>, w: World<S, M>, i: PassInput<M>, reply: Reply, desired: Fields)
    requires Served(w, i) && NothingFails(i)
    ensures var w' := Converge(a, w, i, reply, desired).world;
            var due := !(reply.Found? && FieldsMatch(desired, reply.fields, {}));
            && w'.remote == (if due then a.write(w.remote, desired, reply.Absent?) else w.remote)
            && w.log <= w'.log && (WriteSent(reply.Absent?) in w'.log[|w.log|..] <==> due)
  {
    hide Conditions.Apply, FieldsMatch, Finish, Fail;
    if reply.Found? && FieldsMatch(desired, reply.fields, {}) {
      var es := FinishAppends(a, w, i, reply);
      FinishRemote(a, w, i, reply);
      assert (w.log + es)[|w.log|..] == es;
    } else {
      var remote := a.write(w.remote, desired, reply.Absent?);
      var w1 := w.(remote := remote, log := w.log + [WriteSent(reply.Absent?)]);
      if a.get(remote).Absent? {
        FailAppends(w1, i, Error(w.versions[i.snapshot].spec.generation, "OpenBaoReadFailed", Some("not found"), i.clock));
      } else {
        var es := FinishAppends(a, w1, i, a.get(remote));
        FinishRemote(a, w1, i, a.get(remote));
      }
      var w' := Converge(a, w, i, reply, desired).world;
      assert w1.log[|w.log|] == WriteSent(reply.Absent?) && w1.log <= w'.log;
      assert w'.log[|w.log|..][0] == w'.log[|w.log|];
    }
  }

  lemma FinishRemote<S, M>(a: Adapter<S, M>, w: World<S, M>, i: PassInput<M>, reply: Reply)
    requires Served(w, i) && !reply.Absent?
    ensures Finish(a, w, i, reply).world.remote == w.remote
  {
    hide Conditions.Apply;
  }

  /**
   A pass over the newest version whose calls all succeed completes if and only if the policy or a
   recorded acquisition lets it: a missing object needs a policy that may create, an existing one
   an acquisition or a policy that may adopt. When it completes, the server has the desired fields
   and the newest version says Ready with the acquisition observed.
   */
  lemma CompletesExactly<S(!new), M(!new)>(a: Adapter<S, M>, w: World<S, M>, i: PassInput<M>, desired: Fields)
    requires Served(w, i) && i.snapshot + 1 == |w.versions| && NothingFails(i)
    requires w.versions[i.snapshot].spec.desired == Some(desired)
    requires forall m, creating :: HasFields(a, a.write(m, desired, creating), desired)
    ensures var p := Pass(a, w, i);
            && (p.completed <==> MayProceed(a, w.remote, w.versions[i.snapshot]))
            && (p.completed ==> HasFields(a, p.world.remote, desired) && p.world.versions != []
                                && ReportsReady(Latest(p.world))
                                && Latest(p.world).status.observedGeneration == w.versions[i.snapshot].spec.generation
                                && Latest(p.world).status.configHash == a.configHash(a.get(p.world.remote).fields)
                                && Latest(p.world).status.own ==
                                   a.observe(a.markAcquired(w.versions[i.snapshot].status.own), a.get(p.world.remote).fields))
            && (!p.completed ==> p.world.remote == w.remote)
  {
    hide Conditions.Apply, FieldsMatch, HasFields;
    AgreesIff(a, w.remote, desired);
    forall m, creating ensures HasFields(a, a.write(m, desired, creating), desired) && a.get(a.write(m, desired, creating)).Found? {
      AgreesIff(a, a.write(m, desired, creating), desired);
    }
    var obj := w.versions[i.snapshot];
    ReadyMark(obj.status.conditions, obj.spec.generation, i.clock);
    if !MayProceed(a, w.remote, obj) {
      var read := ReadEvent(a, w.remote, obj);
      FailAppends(w.(log := w.log + [read]), i,
                  Error(obj.spec.generation, "OpenBaoAcquireFailed",
                        Some(if read.ReadAbsent? then "does not exist" else "already exists"), i.clock));
    }
  }

  /** The stored status says Ready for the stored spec. */
  ghost predicate ReportsReady<S>(v: Version<S>) {
    Reports(v.status.conditions, "Ready", True, "Reconciled", "OpenBao resource is reconciled", v.spec.generation)
  }

  lemma ReadyMark(cs: seq<Condition>, generation: int, t: int)
    ensures Reports(Conditions.Apply(cs, Ready(generation, "OpenBao resource is reconciled", t, t)),
                    "Ready", True, "Reconciled", "OpenBao resource is reconciled", generation)
  {
    MarkReports(cs, Ready(generation, "OpenBao resource is reconciled", t, t));
  }

  /** Part of a pass: a version it adds is on top of the one read and says Ready exactly if that is recorded last. */
  ghost predicate TrueReady<S, M>(a: Adapter<S, M>, w: World<S, M>, i: PassInput<M>, w': World<S, M>, desired: Fields)
    requires Served(w, i)
  {
    && w.log <= w'.log
    && (|w'.versions| > |w.versions| ==>
          && Latest(w').spec == w.versions[i.snapshot].spec
          && (IsTrue(Latest(w').status.conditions, "Ready") ==> HasFields(a, w'.remote, desired))
          && (IsTrue(Latest(w').status.conditions, "Ready") <==> |w'.log| > |w.log| && w'.log[|w'.log| - 1] == Recorded))
  }

  lemma FailTrueReady<S, M>(a: Adapter<S, M>, w: World<S, M>, i: PassInput<M>, m: Mark, desired: Fields)
    requires Served(w, i) && !m.Ready?
    ensures TrueReady(a, w, i, Fail(w, i, m).world, desired) && Fail(w, i, m).world.log == w.log
    ensures var w' := Fail(w, i, m).world; |w'.versions| > |w.versions| ==> !IsTrue(Latest(w').status.conditions, "Ready")
  {
    hide Conditions.Apply, IsTrue, HasFields;
    ApplyThenFind(w.versions[i.snapshot].status.conditions, m);
  }

  lemma FinishTrueReady<S, M>(a: Adapter<S, M>, w: World<S, M>, i: PassInput<M>, reply: Reply, desired: Fields)
    requires Served(w, i) && !reply.Absent? && (reply.Found? ==> HasFields(a, w.remote, desired))
    ensures TrueReady(a, w, i, Finish(a, w, i, reply).world, desired)
    ensures var w' := Finish(a, w, i, reply).world;
            |w'.versions| > |w.versions| ==> (IsTrue(Latest(w').status.conditions, "Ready") <==> w'.log == w.log + [Recorded])
    ensures Finish(a, w, i, reply).world.log in {w.log, w.log + [Recorded]}
  {
    hide Conditions.Apply, IsTrue, HasFields;
    var obj := w.versions[i.snapshot];
    var m := Error(obj.spec.generation, "InvalidOpenBaoResponse", Some("no resource"), i.clock);
    FailTrueReady(a, w, i, m, desired);
    ApplyThenFind(obj.status.conditions, Ready(obj.spec.generation, "OpenBao resource is reconciled", i.clock, i.clock));
    assert w.log + [Recorded] != w.log by { assert |w.log + [Recorded]| != |w.log|; }
  }

  lemma ConvergeTrueReady<S(!new), M(!new)>(a: Adapter<S, M>, w: World<S, M>, i: PassInput<M>, reply: Reply, desired: Fields)
    requires Served(w, i) && reply == a.get(w.remote)
    requires forall m, creating :: HasFields(a, a.write(m, desired, creating), desired)
    ensures TrueReady(a, w, i, Converge(a, w, i, reply, desired).world, desired)
  {
    AgreesIff(a, w.remote, desired);
    hide Conditions.Apply, FieldsMatch, HasFields, Fail, Finish, IsTrue;
    var g := w.versions[i.snapshot].spec.generation;
    if reply.Found? && FieldsMatch(desired, reply.fields, {}) {
      FinishTrueReady(a, w, i, reply, desired);
    } else {
      var remote := if i.write.Fine? then a.write(w.remote, desired, reply.Absent?) else i.afterFailedWrite;
      var w1 := w.(remote := remote, log := w.log + [WriteSent(reply.Absent?)]);
      assert w1.log[|w1.log| - 1].WriteSent?;
      if i.write.ErrBefore? || i.write.ErrAfter? {
        FailTrueReady(a, w1, i, Error(g, "OpenBaoWriteFailed", Some(i.write.message), i.clock), desired);
      } else if i.write.Fine? && (i.readBack.ErrBefore? || i.readBack.ErrAfter?) {
        FailTrueReady(a, w1, i, Error(g, "OpenBaoReadFailed", Some(i.readBack.message), i.clock), desired);
      } else if i.write.Fine? && i.readBack.Fine? {
        if a.get(remote).Absent? {
          FailTrueReady(a, w1, i, Error(g, "OpenBaoReadFailed", Some("not found"), i.clock), desired);
        } else {
          FinishTrueReady(a, w1, i, a.get(remote), desired);
        }
      }
    }
  }

  /**
   Ready is never claimed in vain: a version that a pass stores says Ready exactly when the pass
   recorded its completion, and then the server has the fields that this version asks for.
   */
  lemma ReadyIsTrue<S(!new), M(!new)>(a: Adapter<S, M>, w: World<S, M>, i: PassInput<M>, desired: Fields)
    requires Served(w, i) && w.versions[i.snapshot].spec.desired == Some(desired)
    requires forall m, creating :: HasFields(a, a.write(m, desired, creating), desired)
    ensures TrueReady(a, w, i, Pass(a, w, i).world, desired)
  {
    hide Conditions.Apply, FieldsMatch, HasFields, Fail, Converge, IsTrue;
    var obj := w.versions[i.snapshot];
    var g := obj.spec.generation;
    if i.dependency.Some? {
      FailTrueReady(a, w, i, Stalled(g, "DependencyNotReady", i.dependency, i.clock, i.clock), desired);
    } else if i.get.ErrBefore? || i.get.ErrAfter? {
      FailTrueReady(a, w, i, Error(g, "OpenBaoReadFailed", Some(i.get.message), i.clock), desired);
    } else if i.get.Fine? {
      var read := ReadEvent(a, w.remote, obj);
      var w1 := w.(log := w.log + [read]);
      assert w1.log[|w1.log| - 1] == read;
      if !Permitted(read) {
        FailTrueReady(a, w1, i, Error(g, "OpenBaoAcquireFailed", Some(if read.ReadAbsent? then "does not exist" else "already exists"), i.clock), desired);
      } else {
        ConvergeTrueReady(a, w1, i, a.get(w.remote), desired);
      }
    }
  }

  /** A failure on the newest version whose status write lands: the mark is there afterwards. */
  lemma FailStores<S, M>(w: World<S, M>, i: PassInput<M>, m: Mark)
    requires Served(w, i) && i.snapshot + 1 == |w.versions| && i.statusWrite.Fine?
    ensures var p := Fail(w, i, m);
            && !p.completed && p.world.remote == w.remote && p.world.versions != []
            && MarkedWith(Latest(p.world).status.conditions, m)
  {
    hide Conditions.Apply, MarkedWith;
    MarkedByApply(w.versions[i.snapshot].status.conditions, m);
  }

  /**
   A pass that fails without crashing reports why on the newest version and never Ready: a missing
   dependency as Stalled, and every other failure with the reason of the step that failed.
   */
  lemma FailureReported<S, M>(a: Adapter<S, M>, w: World<S, M>, i: PassInput<M>)
    requires Served(w, i) && i.snapshot + 1 == |w.versions| && i.statusWrite.Fine?
    ensures var obj := w.versions[i.snapshot];
            var g := obj.spec.generation;
            var p := Pass(a, w, i);
            var cs := if p.world.versions == [] then [] else Latest(p.world).status.conditions;
            if i.dependency.Some? then
              !p.completed && p.world.remote == w.remote
              && Reports(cs, "Ready", False, "DependencyNotReady", i.dependency.value, g)
              && Reports(cs, "Stalled", True, "DependencyNotReady", i.dependency.value, g)
            else if i.get.ErrBefore? || i.get.ErrAfter? then
              !p.completed && p.world.remote == w.remote && Reports(cs, "Ready", False, "OpenBaoReadFailed", i.get.message, g)
            else if i.get.Fine? && !MayProceed(a, w.remote, obj) then
              !p.completed && p.world.remote == w.remote
              && Reports(cs, "Ready", False, "OpenBaoAcquireFailed", if a.get(w.remote).Absent? then "does not exist" else "already exists", g)
            else if i.get.Fine? && obj.spec.desired.None? then
              !p.completed && p.world.remote == w.remote && Reports(cs, "Ready", False, "InvalidOpenBaoSpec", "invalid spec", g)
            else if i.get.Fine? && !HasFields(a, w.remote, obj.spec.desired.value) && (i.write.ErrBefore? || i.write.ErrAfter?) then
              !p.completed && Reports(cs, "Ready", False, "OpenBaoWriteFailed", i.write.message, g)
            else if i.get.Fine? && !HasFields(a, w.remote, obj.spec.desired.value) && i.write.Fine?
                    && (i.readBack.ErrBefore? || i.readBack.ErrAfter?) then
              !p.completed && Reports(cs, "Ready", False, "OpenBaoReadFailed", i.readBack.message, g)
            else true
  {
    hide Conditions.Apply, FieldsMatch, HasFields, Reports, Finish, Fail;
    var obj := w.versions[i.snapshot];
    var g := obj.spec.generation;
    var read := ReadEvent(a, w.remote, obj);
    var w1 := w.(log := w.log + [read]);
    if i.dependency.Some? {
      FailStores(w, i, Stalled(g, "DependencyNotReady", i.dependency, i.clock, i.clock));
    } else if i.get.ErrBefore? || i.get.ErrAfter? {
      FailStores(w, i, Error(g, "OpenBaoReadFailed", Some(i.get.message), i.clock));
    } else if i.get.Fine? && !MayProceed(a, w.remote, obj) {
      FailStores(w1, i, Error(g, "OpenBaoAcquireFailed", Some(if a.get(w.remote).Absent? then "does not exist" else "already exists"), i.clock));
    } else if i.get.Fine? && obj.spec.desired.None? {
      FailStores(w1, i, Error(g, "InvalidOpenBaoSpec", Some("invalid spec"), i.clock));
    } else if i.get.Fine? {
      AgreesIff(a, w.remote, obj.spec.desired.value);
      var creating := a.get(w.remote).Absent?;
      var remote := if i.write.Fine? then a.write(w.remote, obj.spec.desired.value, creating) else i.afterFailedWrite;
      var w2 := w1.(remote := remote, log := w1.log + [WriteSent(creating)]);
      if i.write.ErrBefore? || i.write.ErrAfter? {
        FailStores(w2, i, Error(g, "OpenBaoWriteFailed", Some(i.write.message), i.clock));
      } else if i.readBack.ErrBefore? || i.readBack.ErrAfter? {
        FailStores(w2, i, Error(g, "OpenBaoReadFailed", Some(i.readBack.message), i.clock));
      }
    }
  }
}
