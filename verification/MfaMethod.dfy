/**
 `OpenBaoMFAMethodReconciler`: OpenBao never returns a method's secret, so a hash recorded in the
 status stands in for it. The theorems say when the server ends up with the current secret.
 */
module MfaMethod {
  import opened Kube
  import opened Conditions
  import opened JsonFields

  datatype Kind = Duo | Okta | PingID | TOTP

  /** The kind of method (immutable) and the library functions it relies on. */
  datatype Env = Env(kind: Kind, digest: string -> string, base64: string -> string, configHash: Fields -> string)

  const SECRET_KEYS: set<string> := {"secret_key", "api_token", "settings_file_base64"}

  /** The non-secret fields `desired` builds from the spec. */
  datatype Spec = Spec(generation: int, creation: CreationPolicy, fields: Fields)

  /** `acquired`: a method ID is recorded. An empty `secretHash` means none was recorded. */
  datatype MfaStatus = MfaStatus(acquired: bool, secretHash: string, configHash: string, conditions: seq<Condition>)

  /** One stored version of the Kubernetes object. */
  datatype Version = Version(spec: Spec, status: MfaStatus)

  /**
   The server's method with its secret, every value the Kubernetes Secret has had (`None` when
   missing or empty) and every stored version of the resource, newest last, and a history variable:
   the secret of the last write that reached the server.
   */
  datatype World = World(
    remote: Option<Fields>, secrets: seq<Option<string>>, versions: seq<Version>, written: Option<string>)

  /** Which version and which value of the Secret the caches serve, and what each call does. */
  datatype PassInput = PassInput(
    snapshot: nat, secretRead: nat, dependency: Option<string>,
    get: Fault, write: Fault, readBack: Fault, statusWrite: Fault, clock: int)

  datatype Outcome = Outcome(world: World, completed: bool, wrote: bool)

  // ---------------------------------------------------------------------------
  // Secrets on the wire and in the status
  // ---------------------------------------------------------------------------

  function SecretKey(kind: Kind): string {
    match kind
    case Duo => "secret_key"
    case Okta => "api_token"
    case PingID => "settings_file_base64"
    case TOTP => ""
  }

  function Wire(env: Env, secret: string): Value {
    Json(if env.kind == PingID then env.base64(secret) else secret)
  }

  /** `mfaSecretHash` of the secret parts: one part with the kind as prefix, or none for TOTP. */
  function Hash(env: Env, secret: string): string {
    match env.kind
    case Duo => env.digest("duo=" + secret)
    case Okta => env.digest("okta=" + secret)
    case PingID => env.digest("pingid=" + secret)
    case TOTP => env.digest("")
  }

  function Desired(env: Env, spec: Spec, secret: string): Fields {
    if env.kind == TOTP then spec.fields else spec.fields[SecretKey(env.kind) := Wire(env, secret)]
  }

  /** What a read returns. */
  function Visible(stored: Fields): Fields {
    stored - SECRET_KEYS
  }

  /** The server holds this secret; nothing to hold for TOTP. */
  predicate Holds(env: Env, remote: Option<Fields>, secret: string) {
    remote.Some? &&
    (env.kind == TOTP ||
     (SecretKey(env.kind) in remote.value && remote.value[SecretKey(env.kind)] == Wire(env, secret)))
  }

  // ---------------------------------------------------------------------------
  // One pass
  // ---------------------------------------------------------------------------

  predicate Served(w: World, i: PassInput) {
    i.snapshot < |w.versions| && i.secretRead < |w.secrets|
  }

  function Latest(w: World): Version
    requires w.versions != []
  {
    w.versions[|w.versions| - 1]
  }

  /** `updateStatusIfChanged`: a write is sent only on change and only lands on the newest version. */
  function Persist(w: World, i: PassInput, after: MfaStatus): (World, bool)
    requires Served(w, i)
  {
    if after == w.versions[i.snapshot].status then (w, true)
    else if i.snapshot + 1 != |w.versions| then (w, false)
    else
      (if i.statusWrite.TookEffect() then w.(versions := w.versions + [w.versions[i.snapshot].(status := after)]) else w,
       i.statusWrite.Fine?)
  }

  /** `fail` and `dependencyFailure`. */
  function Fail(w: World, i: PassInput, m: Mark, wrote: bool): Outcome
    requires Served(w, i)
  {
    var status := w.versions[i.snapshot].status;
    Outcome(Persist(w, i, status.(conditions := Conditions.Apply(status.conditions, m))).0, false, wrote)
  }

  function FailWith(w: World, i: PassInput, reason: string, message: string, wrote: bool): Outcome
    requires Served(w, i)
  {
    Fail(w, i, Error(w.versions[i.snapshot].spec.generation, reason, Some(message), i.clock), wrote)
  }

  const READY_NOTE := "OpenBao MFA method is reconciled"

  function Completed(env: Env, obj: Version, i: PassInput, observed: Fields, secret: string): MfaStatus {
    MfaStatus(true, Hash(env, secret), env.configHash(observed),
              Conditions.Apply(obj.status.conditions, Ready(obj.spec.generation, READY_NOTE, i.clock, i.clock)))
  }

  function Finish(env: Env, w: World, i: PassInput, observed: Fields, secret: string, wrote: bool): Outcome
    requires Served(w, i)
  {
    var stored := Persist(w, i, Completed(env, w.versions[i.snapshot], i, observed, secret));
    Outcome(stored.0, stored.1, wrote)
  }

  /** The server merges the fields sent into the stored method. */
  function Merge(stored: Option<Fields>, sent: Fields): Fields {
    if stored.Some? then stored.value + sent else sent
  }

  /** The version read does not vouch for what is on the server. */
  predicate NeedsWrite(env: Env, w: World, i: PassInput, secret: string)
    requires Served(w, i)
  {
    var obj := w.versions[i.snapshot];
    || w.remote.None?
    || obj.status.secretHash != Hash(env, secret)
    || !FieldsMatch(Desired(env, obj.spec, secret), Visible(w.remote.value), SECRET_KEYS)
  }

  function Converge(env: Env, w: World, i: PassInput, secret: string): Outcome
    requires Served(w, i)
  {
    if !NeedsWrite(env, w, i, secret) then Finish(env, w, i, Visible(w.remote.value), secret, false)
    else
      var stored := Merge(w.remote, Desired(env, w.versions[i.snapshot].spec, secret));
      var w' := if i.write.TookEffect() then w.(remote := Some(stored), written := Some(secret)) else w;
      if i.write.Crashed() then Outcome(w', false, true)
      else if !i.write.Fine? then FailWith(w', i, "MFAWriteFailed", i.write.message, true)
      else if i.readBack.Crashed() then Outcome(w', false, true)
      else if !i.readBack.Fine? then FailWith(w', i, "MFAReadFailed", i.readBack.message, true)
      else Finish(env, w', i, Visible(stored), secret, true)
  }

  /** The secret the pass works with; `None` when it cannot be read. */
  function SecretOf(env: Env, w: World, i: PassInput): Option<string>
    requires Served(w, i)
  {
    if env.kind == TOTP then Some("") else w.secrets[i.secretRead]
  }

  function Pass(env: Env, w: World, i: PassInput): Outcome
    requires Served(w, i)
  {
    var obj := w.versions[i.snapshot];
    var secret := SecretOf(env, w, i);
    if i.dependency.Some? then
      Fail(w, i, Stalled(obj.spec.generation, "DependencyNotReady", i.dependency, i.clock, i.clock), false)
    else if secret.None? then FailWith(w, i, "InvalidMFASpec", "unreadable Secret", false)
    else if i.get.Crashed() then Outcome(w, false, false)
    else if !i.get.Fine? then FailWith(w, i, "MFAReadFailed", i.get.message, false)
    else if w.remote.None? && !obj.spec.creation.AllowsCreation() then FailWith(w, i, "MFIAcquireFailed", "does not exist", false)
    else if w.remote.Some? && !obj.status.acquired && !obj.spec.creation.AllowsAdoption() then
      FailWith(w, i, "MFIAcquireFailed", "already exists", false)
    else Converge(env, w, i, secret.value)
  }

  // ---------------------------------------------------------------------------
  // The controller, updating status and server step by step
  // ---------------------------------------------------------------------------

  class MfaCluster {
    const env: Env
    var remote: Option<Fields>
    var secrets: seq<Option<string>>
    var versions: seq<Version>
    var written: Option<string>

    function Contents(): World
      reads this
    {
      World(remote, secrets, versions, written)
    }

    constructor (env: Env, w: World)
      ensures this.env == env && Contents() == w
    {
      this.env := env;
      remote, secrets, versions, written := w.remote, w.secrets, w.versions, w.written;
    }

    method UpdateStatus(i: PassInput, after: MfaStatus) returns (ok: bool)
      requires Served(Contents(), i)
      modifies this`versions
      ensures (Contents(), ok) == Persist(old(Contents()), i, after)
    {
      if after == versions[i.snapshot].status { return true; }
      if i.snapshot + 1 != |versions| { return false; }
      if i.statusWrite.TookEffect() { versions := versions + [versions[i.snapshot].(status := after)]; }
      ok := i.statusWrite.Fine?;
    }

    method Failure(i: PassInput, m: Mark)
      requires Served(Contents(), i)
      modifies this`versions
      ensures forall wrote :: Fail(old(Contents()), i, m, wrote) == Outcome(Contents(), false, wrote)
    {
      var status := versions[i.snapshot].status;
      var _ := UpdateStatus(i, status.(conditions := Conditions.Apply(status.conditions, m)));
    }

    method Reconcile(i: PassInput) returns (completed: bool, wrote: bool)
      requires Served(Contents(), i)
      modifies this
      ensures Pass(env, old(Contents()), i) == Outcome(Contents(), completed, wrote)
    {
      hide Conditions.Apply, Wire, Visible, Converge, Persist;
      completed, wrote := false, false;
      var obj := versions[i.snapshot];
      var g := obj.spec.generation;
      if i.dependency.Some? {
        Failure(i, Stalled(g, "DependencyNotReady", i.dependency, i.clock, i.clock));
        return;
      }
      var value := "";
      var desired := obj.spec.fields;
      if env.kind != TOTP {
        if secrets[i.secretRead].None? {
          Failure(i, Error(g, "InvalidMFASpec", Some("unreadable Secret"), i.clock));
          return;
        }
        value := secrets[i.secretRead].value;
        desired := desired[SecretKey(env.kind) := Wire(env, value)];
      }
      if i.get.Crashed() { return; }
      if !i.get.Fine? {
        Failure(i, Error(g, "MFAReadFailed", Some(i.get.message), i.clock));
        return;
      }
      var created := false;
      var observed: Fields := map[];
      if remote.None? {
        if !obj.spec.creation.AllowsCreation() {
          Failure(i, Error(g, "MFIAcquireFailed", Some("does not exist"), i.clock));
          return;
        }
        created := true;
      } else {
        if !obj.status.acquired && !obj.spec.creation.AllowsAdoption() {
          Failure(i, Error(g, "MFIAcquireFailed", Some("already exists"), i.clock));
          return;
        }
        observed := Visible(remote.value);
      }
      completed, wrote := Correct(i, created, observed, desired, value);
    }

    /** From the comparison of hash and fields to the status write. */
    method Correct(i: PassInput, created: bool, found: Fields, desired: Fields, value: string) returns (completed: bool, wrote: bool)
      requires Served(Contents(), i)
      requires created == remote.None? && (remote.Some? ==> found == Visible(remote.value))
      requires desired == Desired(env, versions[i.snapshot].spec, value)
      modifies this
      ensures Converge(env, old(Contents()), i, value) == Outcome(Contents(), completed, wrote)
    {
      hide Conditions.Apply, FieldsMatch, Hash, Visible, Merge, Desired, Persist;
      completed, wrote := false, false;
      var obj := versions[i.snapshot];
      var g := obj.spec.generation;
      var observed := found;
      var secretHash := Hash(env, value);
      var matching := DesiredFieldsMatch(desired, observed, SECRET_KEYS);
      if created || obj.status.secretHash != secretHash || !matching {
        wrote := true;
        var stored := Merge(remote, desired);
        if i.write.TookEffect() { remote, written := Some(stored), Some(value); }
        if i.write.Crashed() { return; }
        if !i.write.Fine? {
          Failure(i, Error(g, "MFAWriteFailed", Some(i.write.message), i.clock));
          return;
        }
        if i.readBack.Crashed() { return; }
        if !i.readBack.Fine? {
          Failure(i, Error(g, "MFAReadFailed", Some(i.readBack.message), i.clock));
          return;
        }
        observed := Visible(stored);
      }
      var after := obj.status.(acquired := true, configHash := env.configHash(observed));
      after := after.(secretHash := secretHash);
      after := after.(conditions := Conditions.Apply(after.conditions, Ready(g, READY_NOTE, i.clock, i.clock)));
      completed := UpdateStatus(i, after);
    }
  }

  // ---------------------------------------------------------------------------
  // Whole runs
  // ---------------------------------------------------------------------------

  datatype Action =
    | DoPass(input: PassInput)
    | Rotate(secret: Option<string>)
    | EditSpec(spec: Spec)
    | OutsideEdit(fields: Fields)
    | OutsideDelete

  /** The secret field of two stored methods is the same. */
  predicate SameSecret(env: Env, a: Fields, b: Fields) {
    var k := SecretKey(env.kind);
    env.kind == TOTP || ((k in a <==> k in b) && (k in a ==> a[k] == b[k]))
  }

  /** No version records a hash yet. */
  predicate NoneRecorded(w: World) {
    forall k :: 0 <= k < |w.versions| ==> w.versions[k].status.secretHash == ""
  }

  /** Only the operator writes secrets, from the moment it has recorded one. */
  predicate Enabled(env: Env, w: World, action: Action) {
    match action
    case DoPass(i) => Served(w, i)
    case OutsideEdit(fields) => NoneRecorded(w) || (w.remote.Some? && SameSecret(env, w.remote.value, fields))
    case EditSpec(_) => w.versions != []
    case _ => true
  }

  function Step(env: Env, w: World, action: Action): World
    requires Enabled(env, w, action)
  {
    match action
    case DoPass(i) => Pass(env, w, i).world
    case Rotate(secret) => w.(secrets := w.secrets + [secret])
    case EditSpec(spec) => w.(versions := w.versions + [Latest(w).(spec := spec)])
    case OutsideEdit(fields) => w.(remote := Some(fields))
    case OutsideDelete => w.(remote := None)
  }

  predicate Runs(env: Env, w: World, actions: seq<Action>)
    decreases |actions|
  {
    actions == [] || (Enabled(env, w, actions[0]) && Runs(env, Step(env, w, actions[0]), actions[1..]))
  }

  function Run(env: Env, w: World, actions: seq<Action>): World
    requires Runs(env, w, actions)
    decreases |actions|
  {
    if actions == [] then w else Run(env, Step(env, w, actions[0]), actions[1..])
  }

  /** The hash and base64 are injective, and a hash is never the empty string. */
  ghost predicate Sound(env: Env) {
    && (forall x, y :: env.digest(x) == env.digest(y) ==> x == y)
    && (forall x, y :: env.base64(x) == env.base64(y) ==> x == y)
    && (forall x :: env.digest(x) != "")
  }

  lemma HashDecides(env: Env, a: string, b: string)
    requires Sound(env) && env.kind != TOTP
    ensures Hash(env, a) == Hash(env, b) <==> a == b
    ensures Wire(env, a) == Wire(env, b) <==> a == b
    ensures Hash(env, a) != ""
  {
    var prefix := match env.kind case Duo => "duo=" case Okta => "okta=" case _ => "pingid=";
    if Hash(env, a) == Hash(env, b) {
      assert prefix + a == prefix + b;
      assert a == (prefix + a)[|prefix|..] == b;
    }
  }

  /** Once a hash is recorded, the server holds the secret last written to it. */
  ghost predicate Tracked(env: Env, w: World) {
    w.remote.Some? && !NoneRecorded(w) ==> w.written.Some? && Holds(env, w.remote, w.written.value)
  }

  /** What a pass with secret `v` does to server, history and versions, in short. */
  ghost predicate PassFacts(env: Env, w: World, i: PassInput, v: Option<string>, p: Outcome)
    requires Served(w, i)
  {
    var w' := p.world;
    && (p.completed || p.wrote ==> v.Some?)
    && (p.completed ==> (p.wrote <==> NeedsWrite(env, w, i, v.value)))
    && (p.completed && p.wrote ==> Holds(env, w'.remote, v.value))
    && ((w'.remote == w.remote && w'.written == w.written) || (p.wrote && Holds(env, w'.remote, v.value) && w'.written == v))
    && w'.secrets == w.secrets
    && (|| Grown(w, w', w.versions[i.snapshot].status.secretHash)
        || (p.wrote && Holds(env, w'.remote, v.value) && w'.written == v && Grown(w, w', Hash(env, v.value))))
  }

  /** At most one version was added, and it records this hash. */
  ghost predicate Grown(w: World, w': World, hash: string) {
    || w'.versions == w.versions
    || (|w'.versions| == |w.versions| + 1 && w'.versions[..|w.versions|] == w.versions && Latest(w').status.secretHash == hash)
  }

  lemma FailKeeps(w: World, i: PassInput, m: Mark, wrote: bool)
    requires Served(w, i)
    ensures var p := Fail(w, i, m, wrote);
            && !p.completed && p.wrote == wrote && p.world == w.(versions := p.world.versions)
            && Grown(w, p.world, w.versions[i.snapshot].status.secretHash)
  {
    hide Conditions.Apply;
  }

  lemma FinishKeeps(env: Env, w: World, i: PassInput, observed: Fields, secret: string, wrote: bool)
    requires Served(w, i)
    ensures var p := Finish(env, w, i, observed, secret, wrote);
            && p.wrote == wrote && p.world == w.(versions := p.world.versions)
            && Grown(w, p.world, Hash(env, secret))
  {
    hide Conditions.Apply, Hash;
  }

  lemma MergeHolds(env: Env, stored: Option<Fields>, spec: Spec, secret: string)
    ensures Holds(env, Some(Merge(stored, Desired(env, spec, secret))), secret)
  {
    hide Wire;
  }

  lemma ConvergeHasFacts(env: Env, w: World, i: PassInput, secret: string)
    requires Served(w, i)
    ensures PassFacts(env, w, i, Some(secret), Converge(env, w, i, secret))
  {
    assert Grown(w, w, w.versions[i.snapshot].status.secretHash);
    if !NeedsWrite(env, w, i, secret) {
      hide Finish, Hash, Visible, NeedsWrite, Grown;
      FinishKeeps(env, w, i, Visible(w.remote.value), secret, false);
    } else {
      hide Conditions.Apply, Hash, Desired, Visible, Merge, Holds, Finish, Fail, NeedsWrite, Grown;
      var obj := w.versions[i.snapshot];
      var stored := Merge(w.remote, Desired(env, obj.spec, secret));
      MergeHolds(env, w.remote, obj.spec, secret);
      var w' := if i.write.TookEffect() then w.(remote := Some(stored), written := Some(secret)) else w;
      SameGrowth(w, w');
      FinishKeeps(env, w', i, Visible(stored), secret, true);
      if i.write.ErrBefore? || i.write.ErrAfter? {
        FailKeeps(w', i, Error(obj.spec.generation, "MFAWriteFailed", Some(i.write.message), i.clock), true);
      } else if i.readBack.ErrBefore? || i.readBack.ErrAfter? {
        FailKeeps(w', i, Error(obj.spec.generation, "MFAReadFailed", Some(i.readBack.message), i.clock), true);
      }
    }
  }

  /** Only the versions matter for what was added. */
  lemma SameGrowth(a: World, b: World)
    requires a.versions == b.versions
    ensures forall w, hash :: Grown(a, w, hash) <==> Grown(b, w, hash)
    ensures forall hash :: Grown(a, b, hash)
  {
  }

  lemma PassHasFacts(env: Env, w: World, i: PassInput)
    requires Served(w, i)
    ensures PassFacts(env, w, i, SecretOf(env, w, i), Pass(env, w, i))
  {
    hide Conditions.Apply, Hash, Converge, Holds, Fail, NeedsWrite, Grown;
    SameGrowth(w, w);
    var g := w.versions[i.snapshot].spec.generation;
    var secret := SecretOf(env, w, i);
    if secret.Some? { ConvergeHasFacts(env, w, i, secret.value); }
    FailKeeps(w, i, Stalled(g, "DependencyNotReady", i.dependency, i.clock, i.clock), false);
    FailKeeps(w, i, Error(g, "InvalidMFASpec", Some("unreadable Secret"), i.clock), false);
    if i.get.ErrBefore? || i.get.ErrAfter? { FailKeeps(w, i, Error(g, "MFAReadFailed", Some(i.get.message), i.clock), false); }
    FailKeeps(w, i, Error(g, "MFIAcquireFailed", Some("does not exist"), i.clock), false);
    FailKeeps(w, i, Error(g, "MFIAcquireFailed", Some("already exists"), i.clock), false);
  }

  lemma StepKeepsTracked(env: Env, w: World, action: Action)
    requires Tracked(env, w) && Enabled(env, w, action)
    ensures Tracked(env, Step(env, w, action))
  {
    hide Pass, Hash, Wire, NeedsWrite;
    if action.DoPass? { PassHasFacts(env, w, action.input); }
  }

  lemma {:induction false} RunKeepsTracked(env: Env, w: World, actions: seq<Action>)
    requires Tracked(env, w) && Runs(env, w, actions)
    ensures Tracked(env, Run(env, w, actions))
    decreases |actions|
  {
    hide Step, Tracked, Enabled;
    if actions != [] {
      StepKeepsTracked(env, w, actions[0]);
      RunKeepsTracked(env, Step(env, w, actions[0]), actions[1..]);
    }
  }

  /**
   In every run, with passes that read old versions and old Secrets and stop at any call, with
   rotations, reverts, adoption, outside edits and remote deletion: a completed pass leaves on the
   server the secret it read if and only if the version it read called for a write, or the last
   write that reached the server was of this very secret.
   */
  lemma SecretCurrentIff(env: Env, w: World, actions: seq<Action>, i: PassInput)
    requires Sound(env) && env.kind != TOTP && NoneRecorded(w) && Runs(env, w, actions)
    requires Served(Run(env, w, actions), i) && Pass(env, Run(env, w, actions), i).completed
    ensures var w' := Run(env, w, actions);
            var v := w'.secrets[i.secretRead];
            && v.Some?
            && (Holds(env, Pass(env, w', i).world.remote, v.value) <==>
                  NeedsWrite(env, w', i, v.value) || w'.written == v)
  {
    hide Pass, Hash, Wire, FieldsMatch, Runs;
    var w' := Run(env, w, actions);
    RunKeepsTracked(env, w, actions);
    PassHasFacts(env, w', i);
    var v := w'.secrets[i.secretRead].value;
    HashDecides(env, v, v);
    if w'.written.Some? { HashDecides(env, w'.written.value, v); }
    if !NeedsWrite(env, w', i, v) { assert w'.versions[i.snapshot].status.secretHash != ""; }
  }

  /** The newest version records the hash of the last secret written. */
  predicate Recorded(env: Env, w: World) {
    w.written.Some? ==> w.versions != [] && Latest(w).status.secretHash == Hash(env, w.written.value)
  }

  /** No pass of the run stops, or is turned away, between its write and the recording of the hash. */
  predicate NoGap(env: Env, w: World, actions: seq<Action>)
    requires Runs(env, w, actions)
    decreases |actions|
  {
    actions == [] ||
    (Recorded(env, Step(env, w, actions[0])) && NoGap(env, Step(env, w, actions[0]), actions[1..]))
  }

  lemma {:induction false} NoGapEnds(env: Env, w: World, actions: seq<Action>)
    requires Recorded(env, w) && Runs(env, w, actions) && NoGap(env, w, actions)
    ensures Recorded(env, Run(env, w, actions))
    decreases |actions|
  {
    hide Step, Recorded, Enabled;
    if actions != [] { NoGapEnds(env, Step(env, w, actions[0]), actions[1..]); }
  }

  /**
   Without such gaps a completed pass leaves the secret it read on the server if and only if the
   version it read called for a write, or the newest version records the hash of that secret. In
   particular a pass that read the newest version always does.
   */
  lemma SecretConverges(env: Env, w: World, actions: seq<Action>, i: PassInput)
    requires Sound(env) && env.kind != TOTP && NoneRecorded(w) && w.written.None?
    requires Runs(env, w, actions) && NoGap(env, w, actions)
    requires Served(Run(env, w, actions), i) && Pass(env, Run(env, w, actions), i).completed
    ensures var w' := Run(env, w, actions);
            var v := w'.secrets[i.secretRead];
            && v.Some?
            && (Holds(env, Pass(env, w', i).world.remote, v.value) <==>
                  NeedsWrite(env, w', i, v.value) || Latest(w').status.secretHash == Hash(env, v.value))
            && (i.snapshot + 1 == |w'.versions| ==> Holds(env, Pass(env, w', i).world.remote, v.value))
  {
    hide Pass, Holds, Hash, FieldsMatch, Runs, Sound;
    NoGapEnds(env, w, actions);
    SecretCurrentIff(env, w, actions, i);
    RunKeepsTracked(env, w, actions);
    var w' := Run(env, w, actions);
    var v := w'.secrets[i.secretRead].value;
    PassHasFacts(env, w', i);
    HashDecides(env, v, v);
    if w'.written.Some? { HashDecides(env, w'.written.value, v); }
    if !NeedsWrite(env, w', i, v) { assert w'.versions[i.snapshot].status.secretHash != ""; }
  }

  // ---------------------------------------------------------------------------
  // Two ways to keep a withdrawn secret
  // ---------------------------------------------------------------------------

  /** The newest version and the server agree on this secret, and a pass would change nothing. */
  ghost predicate Settled(env: Env, w: World, secret: string) {
    && w.remote.Some? && w.versions != [] && Latest(w).status.acquired
    && Latest(w).status.secretHash == Hash(env, secret)
    && Latest(w).status.configHash == env.configHash(Visible(w.remote.value))
    && (exists cs, t :: Latest(w).status.conditions == ReadyAt(Latest(w).spec, cs, t))
    && FieldsMatch(Desired(env, Latest(w).spec, secret), Visible(w.remote.value), SECRET_KEYS)
  }

  function ReadyAt(spec: Spec, cs: seq<Condition>, t: int): seq<Condition> {
    Conditions.Apply(cs, Ready(spec.generation, READY_NOTE, t, t))
  }

  predicate NothingFails(i: PassInput) {
    i.dependency.None? && i.get.Fine? && i.write.Fine? && i.readBack.Fine? && i.statusWrite.Fine?
  }

  /** Writing another secret over matching fields changes nothing that a read returns. */
  lemma VisibleAfterWrite(env: Env, stored: Fields, spec: Spec, secret: string, other: string)
    requires env.kind != TOTP
    requires FieldsMatch(Desired(env, spec, secret), Visible(stored), SECRET_KEYS)
    ensures Visible(Merge(Some(stored), Desired(env, spec, other))) == Visible(stored)
    ensures FieldsMatch(Desired(env, spec, other), Visible(stored), SECRET_KEYS)
  {
    var after := Desired(env, spec, other);
    forall k | k in after && k !in SECRET_KEYS
      ensures k in Visible(stored) && JsonEqual(after[k], Visible(stored)[k]) && stored[k] == after[k]
    {
      assert k in Desired(env, spec, secret) && Desired(env, spec, secret)[k] == after[k];
    }
  }

  /** Passing over a settled world with the same secret stores nothing. */
  lemma CompletedAgain(env: Env, obj: Version, i: PassInput, observed: Fields, secret: string)
    requires obj.status.acquired && obj.status.secretHash == Hash(env, secret)
    requires obj.status.configHash == env.configHash(observed)
    requires exists cs, t :: obj.status.conditions == ReadyAt(obj.spec, cs, t)
    ensures Completed(env, obj, i, observed, secret) == obj.status
  {
    var cs, t :| obj.status.conditions == ReadyAt(obj.spec, cs, t);
    RepeatedMarkIsSilent(cs, Ready(obj.spec.generation, READY_NOTE, t, t), Ready(obj.spec.generation, READY_NOTE, i.clock, i.clock));
  }

  /** The world after the Secret was rotated and a pass on the newest version wrote it. */
  lemma RotatedPass(env: Env, w: World, secret: string, rotated: string, i: PassInput)
    requires Sound(env) && env.kind != TOTP && Settled(env, w, secret) && secret != rotated
    requires Served(w, i) && w.secrets[i.secretRead] == Some(rotated) && i.snapshot + 1 == |w.versions|
    requires i.dependency.None? && i.get.Fine?
    ensures var w' := Pass(env, w, i).world;
            && (i.write == CrashAfter || NothingFails(i) ==>
                  && w'.remote.Some? && Holds(env, w'.remote, rotated) && !Holds(env, w'.remote, secret)
                  && Visible(w'.remote.value) == Visible(w.remote.value) && w'.secrets == w.secrets)
            && (i.write == CrashAfter ==> w'.versions == w.versions)
            && (NothingFails(i) ==> Pass(env, w, i).completed && |w'.versions| == |w.versions| + 1
                                    && w'.versions[..|w.versions|] == w.versions && Recorded(env, w'))
  {
    hide Conditions.Apply, Hash, Visible, Desired, FieldsMatch, Merge, Sound, Wire, Fail;
    HashDecides(env, secret, rotated);
    VisibleAfterWrite(env, w.remote.value, Latest(w).spec, secret, rotated);
    MergeHolds(env, w.remote, Latest(w).spec, rotated);
    assert NeedsWrite(env, w, i, rotated);
    hide NeedsWrite;
  }

  /** A pass that reads the old version with the old secret sees nothing to do. */
  lemma OldVersionSeesNothing(env: Env, earlier: World, w: World, secret: string, i: PassInput)
    requires Settled(env, earlier, secret) && w.remote.Some? && Visible(w.remote.value) == Visible(earlier.remote.value)
    requires Served(w, i) && w.versions[i.snapshot] == Latest(earlier) && w.secrets[i.secretRead] == Some(secret)
    requires env.kind != TOTP && i.dependency.None? && i.get.Fine?
    ensures Pass(env, w, i) == Outcome(w, true, false)
  {
    hide Conditions.Apply, Hash, Visible, Desired, FieldsMatch, Completed, ReadyAt;
    CompletedAgain(env, Latest(earlier), i, Visible(w.remote.value), secret);
  }

  /** Rotate the Secret, run one pass, put the old value back. */
  lemma RotateAndRevert(env: Env, w: World, secret: string, rotated: string, i: PassInput)
    requires Enabled(env, Step(env, w, Rotate(Some(rotated))), DoPass(i))
    ensures var actions := [Rotate(Some(rotated)), DoPass(i), Rotate(Some(secret))];
            && Runs(env, w, actions)
            && Run(env, w, actions) == Step(env, Step(env, Step(env, w, Rotate(Some(rotated))), DoPass(i)), Rotate(Some(secret)))
            && (Recorded(env, w) && Recorded(env, Step(env, Step(env, w, Rotate(Some(rotated))), DoPass(i))) ==> NoGap(env, w, actions))
  {
    hide Pass, Hash;
    var actions := [Rotate(Some(rotated)), DoPass(i), Rotate(Some(secret))];
    var w1 := Step(env, w, Rotate(Some(rotated)));
    var w2 := Step(env, w1, DoPass(i));
    var w3 := Step(env, w2, Rotate(Some(secret)));
    assert actions[1..] == [DoPass(i), Rotate(Some(secret))];
    assert actions[1..][1..] == [Rotate(Some(secret))];
    assert actions[1..][1..][1..] == [];
    assert Runs(env, w3, []) && Runs(env, w2, actions[1..][1..]) && Runs(env, w1, actions[1..]);
    assert Run(env, w1, actions[1..]) == Run(env, w2, actions[1..][1..]) == Run(env, w3, []);
    if Recorded(env, w) && Recorded(env, w2) {
      assert NoGap(env, w3, []) && NoGap(env, w2, actions[1..][1..]) && NoGap(env, w1, actions[1..]);
    }
  }

  /**
   A gap loses: from a settled state, rotate the Secret, stop right after the write, and revert the
   Secret; the next pass completes, writes nothing, and leaves the withdrawn secret in place.
   */
  lemma RevertAfterGapIsMissed(env: Env, w: World, secret: string, rotated: string, stopped: PassInput, i: PassInput)
    requires Sound(env) && env.kind != TOTP && Settled(env, w, secret) && secret != rotated
    requires stopped.snapshot + 1 == |w.versions| && stopped.secretRead == |w.secrets|
    requires stopped.dependency.None? && stopped.get.Fine? && stopped.write == CrashAfter
    requires i.snapshot + 1 == |w.versions| && i.secretRead == |w.secrets| + 1 && i.dependency.None? && i.get.Fine?
    ensures var actions := [Rotate(Some(rotated)), DoPass(stopped), Rotate(Some(secret))];
            && Runs(env, w, actions)
            && var w' := Run(env, w, actions);
               && Served(w', i) && Pass(env, w', i) == Outcome(w', true, false)
               && Holds(env, w'.remote, rotated) && !Holds(env, w'.remote, secret)
  {
    hide Pass, Settled, Holds, Visible, Sound;
    var w1 := Step(env, w, Rotate(Some(rotated)));
    SettledKept(env, w, w1, secret);
    RotatedPass(env, w1, secret, rotated, stopped);
    RotateAndRevert(env, w, secret, rotated, stopped);
    OldVersionSeesNothing(env, w1, Step(env, Step(env, w1, DoPass(stopped)), Rotate(Some(secret))), secret, i);
  }

  /**
   So does an old version, without any gap: from a settled state, rotate the Secret, let a pass write
   it and record it, revert the Secret, and serve a pass the version from before the rotation. It
   finds its hash and its status unchanged, so it sends no status write that could be refused, and
   completes with the withdrawn secret in place.
   */
  lemma RevertOnOldVersionIsMissed(env: Env, w: World, secret: string, rotated: string, clean: PassInput, i: PassInput)
    requires Sound(env) && env.kind != TOTP && Settled(env, w, secret) && secret != rotated && Recorded(env, w)
    requires clean.snapshot + 1 == |w.versions| && clean.secretRead == |w.secrets| && NothingFails(clean)
    requires i.snapshot + 1 == |w.versions| && i.secretRead == |w.secrets| + 1 && i.dependency.None? && i.get.Fine?
    ensures var actions := [Rotate(Some(rotated)), DoPass(clean), Rotate(Some(secret))];
            && Runs(env, w, actions) && NoGap(env, w, actions)
            && var w' := Run(env, w, actions);
               && Served(w', i) && Pass(env, w', i) == Outcome(w', true, false)
               && Holds(env, w'.remote, rotated) && !Holds(env, w'.remote, secret)
  {
    hide Pass, Settled, Holds, Visible, Sound, Hash, Recorded;
    var w1 := Step(env, w, Rotate(Some(rotated)));
    SettledKept(env, w, w1, secret);
    RotatedPass(env, w1, secret, rotated, clean);
    RotateAndRevert(env, w, secret, rotated, clean);
    OldVersionSeesNothing(env, w1, Step(env, Step(env, w1, DoPass(clean)), Rotate(Some(secret))), secret, i);
  }

  lemma SettledKept(env: Env, w: World, w': World, secret: string)
    requires Settled(env, w, secret) && w' == w.(secrets := w'.secrets)
    ensures Settled(env, w', secret) && w.remote.Some? && w.versions != []
  {
  }

  // ---------------------------------------------------------------------------
  // When a pass must write, and when it must complete
  // ---------------------------------------------------------------------------

  /** The secret is where OpenBao expects it for this kind of method. */
  predicate HasSecret(env: Env, m: Fields, secret: string) {
    match env.kind
    case Duo => "secret_key" in m && m["secret_key"] == Json(secret)
    case Okta => "api_token" in m && m["api_token"] == Json(secret)
    case PingID => "settings_file_base64" in m && m["settings_file_base64"] == Json(env.base64(secret))
    case TOTP => true
  }

  /** Every field of the spec that is not a secret is there as the spec says. */
  ghost predicate HasFields(m: Fields, fields: Fields) {
    forall k :: k in fields && k !in {"secret_key", "api_token", "settings_file_base64"} ==>
      k in m && m[k] == fields[k] && fields[k].Json?
  }

  /** Every field that the spec asks for, and that is not a secret, can be encoded. */
  ghost predicate Encodable(fields: Fields) {
    forall k :: k in fields && k !in {"secret_key", "api_token", "settings_file_base64"} ==> fields[k].Json?
  }

  lemma HoldsExactly(env: Env, remote: Option<Fields>, secret: string)
    ensures Holds(env, remote, secret) <==> remote.Some? && HasSecret(env, remote.value, secret)
  {
  }

  /** The comparison that skips the secrets is about exactly the other fields of the spec. */
  lemma MatchExactly(env: Env, spec: Spec, secret: string, stored: Fields)
    ensures FieldsMatch(Desired(env, spec, secret), Visible(stored), SECRET_KEYS) <==> HasFields(stored, spec.fields)
  {
    hide Wire;
    var d := Desired(env, spec, secret);
    assert forall k :: k !in SECRET_KEYS ==> (k in d <==> k in spec.fields) && (k in d ==> d[k] == spec.fields[k]);
    assert forall k :: k !in SECRET_KEYS ==> (k in Visible(stored) <==> k in stored);
    if HasFields(stored, spec.fields) {
      forall k | k in d && k !in SECRET_KEYS ensures k in Visible(stored) && JsonEqual(d[k], Visible(stored)[k]) {
        assert k in spec.fields;
      }
    }
    if FieldsMatch(d, Visible(stored), SECRET_KEYS) {
      forall k | k in spec.fields && k !in SECRET_KEYS ensures k in stored && stored[k] == spec.fields[k] && spec.fields[k].Json? {
        assert k in d && JsonEqual(d[k], Visible(stored)[k]);
      }
    }
  }

  /** A pass needs to write exactly if the method is missing, the hash it read is another, or a field differs. */
  lemma NeedsWriteExactly(env: Env, w: World, i: PassInput, secret: string)
    requires Served(w, i)
    ensures var obj := w.versions[i.snapshot];
            NeedsWrite(env, w, i, secret) <==>
              w.remote.None? || obj.status.secretHash != Hash(env, secret) || !HasFields(w.remote.value, obj.spec.fields)
  {
    hide Hash, HasFields;
    if w.remote.Some? { MatchExactly(env, w.versions[i.snapshot].spec, secret, w.remote.value); }
  }

  /** A write puts secret and fields in place and leaves every other field. */
  lemma WriteExactly(env: Env, stored: Option<Fields>, spec: Spec, secret: string)
    ensures var m := Merge(stored, Desired(env, spec, secret));
            && HasSecret(env, m, secret)
            && (Encodable(spec.fields) ==> HasFields(m, spec.fields))
            && (stored.Some? ==> forall k :: k in stored.value && k !in spec.fields && k != SecretKey(env.kind) ==>
                                   k in m && m[k] == stored.value[k])
            && (forall k :: k in m ==> k in spec.fields || k == SecretKey(env.kind) || (stored.Some? && k in stored.value))
  {
  }

  /** The fields that are no secrets, whatever the kind of method. */
  function Shown(m: Fields): Fields {
    map k | k in m && k != "secret_key" && k != "api_token" && k != "settings_file_base64" :: m[k]
  }

  lemma VisibleIsShown(m: Fields)
    ensures Visible(m) == Shown(m)
  {
  }

  /** The policy and the record let the pass go on from what it found. */
  predicate MayProceed(w: World, i: PassInput)
    requires Served(w, i)
  {
    var obj := w.versions[i.snapshot];
    if w.remote.None? then obj.spec.creation != Adopt else obj.status.acquired || obj.spec.creation != Create
  }

  /**
   A pass whose calls succeed and whose Secret can be read writes exactly if it may proceed and needs
   to; then the server holds the secret it read and the fields of the spec.
   */
  lemma WritesExactly(env: Env, w: World, i: PassInput)
    requires Served(w, i) && NothingFails(i) && SecretOf(env, w, i).Some?
    ensures var obj := w.versions[i.snapshot];
            var secret := SecretOf(env, w, i).value;
            var p := Pass(env, w, i);
            && (p.wrote <==> MayProceed(w, i) && NeedsWrite(env, w, i, secret))
            && (p.wrote ==> p.world.remote.Some? && HasSecret(env, p.world.remote.value, secret)
                            && (Encodable(obj.spec.fields) ==> HasFields(p.world.remote.value, obj.spec.fields)))
            && (!p.wrote ==> p.world.remote == w.remote)
  {
    hide Conditions.Apply, NeedsWrite, Desired, Merge, HasSecret, HasFields, Encodable, Hash, Visible;
    WriteExactly(env, w.remote, w.versions[i.snapshot].spec, SecretOf(env, w, i).value);
  }

  /**
   A pass over the newest version whose calls all succeed completes if and only if its Secret can
   be read and the policy or a recorded acquisition lets it. When it completes, the fields of the
   spec are on the server, and the newest version records the hash of the secret it read and reports Ready.
   */
  lemma CompletesExactly(env: Env, w: World, i: PassInput)
    requires Served(w, i) && i.snapshot + 1 == |w.versions| && NothingFails(i) && Encodable(w.versions[i.snapshot].spec.fields)
    ensures var obj := w.versions[i.snapshot];
            var p := Pass(env, w, i);
            && (p.completed <==> (env.kind == TOTP || w.secrets[i.secretRead].Some?) && MayProceed(w, i))
            && (p.completed ==>
                  && p.world.versions != [] && Latest(p.world).spec == obj.spec && Latest(p.world).status.acquired
                  && Latest(p.world).status.secretHash == Hash(env, SecretOf(env, w, i).value)
                  && ReportsReady(Latest(p.world))
                  && p.world.remote.Some? && HasFields(p.world.remote.value, obj.spec.fields)
                  && Latest(p.world).status.configHash == env.configHash(Shown(p.world.remote.value)))
            && (!p.completed ==> p.world.remote == w.remote)
  {
    hide Conditions.Apply, NeedsWrite, Desired, Merge, HasSecret, HasFields, Encodable, Hash, ReportsReady, Visible, Shown, Finish, Fail;
    var obj := w.versions[i.snapshot];
    var secret := SecretOf(env, w, i);
    if secret.None? {
      FailStores(w, i, Error(obj.spec.generation, "InvalidMFASpec", Some("unreadable Secret"), i.clock), false);
    } else if !MayProceed(w, i) {
      FailStores(w, i, Error(obj.spec.generation, "MFIAcquireFailed", Some(if w.remote.None? then "does not exist" else "already exists"), i.clock), false);
    } else {
      WriteExactly(env, w.remote, obj.spec, secret.value);
      NeedsWriteExactly(env, w, i, secret.value);
      var stored := Merge(w.remote, Desired(env, obj.spec, secret.value));
      if w.remote.Some? {
        FinishStores(env, w, i, w.remote.value, secret.value, false);
      }
      FinishStores(env, w.(remote := Some(stored), written := secret), i, stored, secret.value, true);
    }
  }

  /** Finishing on the newest version: what is stored, and that the server is left alone. */
  lemma FinishStores(env: Env, w: World, i: PassInput, stored: Fields, secret: string, wrote: bool)
    requires Served(w, i) && i.snapshot + 1 == |w.versions| && i.statusWrite.Fine?
    ensures var p := Finish(env, w, i, Visible(stored), secret, wrote);
            && p.completed && p.world.remote == w.remote && p.world.versions != []
            && Latest(p.world).spec == w.versions[i.snapshot].spec && Latest(p.world).status.acquired
            && Latest(p.world).status.secretHash == Hash(env, secret) && ReportsReady(Latest(p.world))
            && Latest(p.world).status.configHash == env.configHash(Shown(stored))
  {
    hide Conditions.Apply, Hash, ReportsReady;
    VisibleIsShown(stored);
    ReadyMark(w.versions[i.snapshot], i);
  }

  /** The stored status says Ready for the stored spec. */
  ghost predicate ReportsReady(v: Version) {
    Reports(v.status.conditions, "Ready", True, "Reconciled", "OpenBao MFA method is reconciled", v.spec.generation)
  }

  lemma ReadyMark(obj: Version, i: PassInput)
    ensures forall status: MfaStatus ::
              status.conditions == Conditions.Apply(obj.status.conditions, Ready(obj.spec.generation, READY_NOTE, i.clock, i.clock)) ==>
                ReportsReady(Version(obj.spec, status))
  {
    hide Conditions.Apply;
    MarkReports(obj.status.conditions, Ready(obj.spec.generation, READY_NOTE, i.clock, i.clock));
  }

  /** A version that a part of a pass adds says Ready only if `held`. */
  ghost predicate TrueReady(w: World, w': World, held: bool) {
    |w'.versions| > |w.versions| && IsTrue(Latest(w').status.conditions, "Ready") ==> held
  }

  lemma FailedNotReady(w: World, i: PassInput, m: Mark, wrote: bool)
    requires Served(w, i) && !m.Ready?
    ensures TrueReady(w, Fail(w, i, m, wrote).world, false)
  {
    hide Conditions.Apply, IsTrue;
    ApplyThenFind(w.versions[i.snapshot].status.conditions, m);
  }

  /**
   Ready is never claimed in vain: a version that any pass stores with Ready stands for a method that
   has the fields of the spec, whose hash is that of the secret read, and which holds that secret
   if this pass wrote.
   */
  lemma ReadyIsTrue(env: Env, w: World, i: PassInput)
    requires Served(w, i) && Encodable(w.versions[i.snapshot].spec.fields)
    ensures var obj := w.versions[i.snapshot];
            var p := Pass(env, w, i);
            |p.world.versions| > |w.versions| && IsTrue(Latest(p.world).status.conditions, "Ready") ==>
              && SecretOf(env, w, i).Some? && p.world.remote.Some? && HasFields(p.world.remote.value, obj.spec.fields)
              && Latest(p.world).status.secretHash == Hash(env, SecretOf(env, w, i).value)
              && (p.wrote ==> HasSecret(env, p.world.remote.value, SecretOf(env, w, i).value))
  {
    hide Conditions.Apply, NeedsWrite, HasSecret, HasFields, Encodable, Hash, IsTrue, Fail, Converge;
    var obj := w.versions[i.snapshot];
    var g := obj.spec.generation;
    var secret := SecretOf(env, w, i);
    if i.dependency.Some? {
      FailedNotReady(w, i, Stalled(g, "DependencyNotReady", i.dependency, i.clock, i.clock), false);
    } else if secret.None? {
      FailedNotReady(w, i, Error(g, "InvalidMFASpec", Some("unreadable Secret"), i.clock), false);
    } else if i.get.ErrBefore? || i.get.ErrAfter? {
      FailedNotReady(w, i, Error(g, "MFAReadFailed", Some(i.get.message), i.clock), false);
    } else if i.get.Fine? {
      FailedNotReady(w, i, Error(g, "MFIAcquireFailed", Some("does not exist"), i.clock), false);
      FailedNotReady(w, i, Error(g, "MFIAcquireFailed", Some("already exists"), i.clock), false);
      ConvergeReadyIsTrue(env, w, i, secret.value);
    }
  }

  lemma ConvergeReadyIsTrue(env: Env, w: World, i: PassInput, secret: string)
    requires Served(w, i) && Encodable(w.versions[i.snapshot].spec.fields)
    ensures var obj := w.versions[i.snapshot];
            var p := Converge(env, w, i, secret);
            |p.world.versions| > |w.versions| && IsTrue(Latest(p.world).status.conditions, "Ready") ==>
              && p.world.remote.Some? && HasFields(p.world.remote.value, obj.spec.fields)
              && Latest(p.world).status.secretHash == Hash(env, secret)
              && (p.wrote ==> HasSecret(env, p.world.remote.value, secret))
  {
    hide Conditions.Apply, NeedsWrite, HasSecret, HasFields, Encodable, Hash, IsTrue, Fail, Merge, Desired, Visible;
    var obj := w.versions[i.snapshot];
    var g := obj.spec.generation;
    WriteExactly(env, w.remote, obj.spec, secret);
    NeedsWriteExactly(env, w, i, secret);
    var stored := Merge(w.remote, Desired(env, obj.spec, secret));
    var w' := if i.write.TookEffect() then w.(remote := Some(stored), written := Some(secret)) else w;
    if i.write.ErrBefore? || i.write.ErrAfter? {
      FailedNotReady(w', i, Error(g, "MFAWriteFailed", Some(i.write.message), i.clock), true);
    } else if i.readBack.ErrBefore? || i.readBack.ErrAfter? {
      FailedNotReady(w', i, Error(g, "MFAReadFailed", Some(i.readBack.message), i.clock), true);
    }
  }

  /** A failure on the newest version whose status write lands: the mark is there afterwards. */
  lemma FailStores(w: World, i: PassInput, m: Mark, wrote: bool)
    requires Served(w, i) && i.snapshot + 1 == |w.versions| && i.statusWrite.Fine?
    ensures var p := Fail(w, i, m, wrote);
            && !p.completed && p.wrote == wrote && p.world.remote == w.remote && p.world.versions != []
            && MarkedWith(Latest(p.world).status.conditions, m)
  {
    hide Conditions.Apply, MarkedWith;
    MarkedByApply(w.versions[i.snapshot].status.conditions, m);
  }

  /**
   A pass that fails before its write, without crashing, reports why on the newest version and never
   Ready: a missing dependency as Stalled, every other failure with the reason of its step.
   */
  lemma FailureReported(env: Env, w: World, i: PassInput)
    requires Served(w, i) && i.snapshot + 1 == |w.versions| && i.statusWrite.Fine?
    ensures var g := w.versions[i.snapshot].spec.generation;
            var p := Pass(env, w, i);
            var cs := if p.world.versions == [] then [] else Latest(p.world).status.conditions;
            if i.dependency.Some? then
              !p.completed && p.world.remote == w.remote
              && Reports(cs, "Ready", False, "DependencyNotReady", i.dependency.value, g)
              && Reports(cs, "Stalled", True, "DependencyNotReady", i.dependency.value, g)
            else if SecretOf(env, w, i).None? then
              !p.completed && p.world.remote == w.remote && Reports(cs, "Ready", False, "InvalidMFASpec", "unreadable Secret", g)
            else if i.get.ErrBefore? || i.get.ErrAfter? then
              !p.completed && p.world.remote == w.remote && Reports(cs, "Ready", False, "MFAReadFailed", i.get.message, g)
            else if i.get.Fine? && !MayProceed(w, i) then
              !p.completed && p.world.remote == w.remote
              && Reports(cs, "Ready", False, "MFIAcquireFailed", if w.remote.None? then "does not exist" else "already exists", g)
            else true
  {
    hide Conditions.Apply, Reports, Fail, Converge;
    var g := w.versions[i.snapshot].spec.generation;
    if i.dependency.Some? {
      FailStores(w, i, Stalled(g, "DependencyNotReady", i.dependency, i.clock, i.clock), false);
    } else if SecretOf(env, w, i).None? {
      FailStores(w, i, Error(g, "InvalidMFASpec", Some("unreadable Secret"), i.clock), false);
    } else if i.get.ErrBefore? || i.get.ErrAfter? {
      FailStores(w, i, Error(g, "MFAReadFailed", Some(i.get.message), i.clock), false);
    } else if i.get.Fine? && !MayProceed(w, i) {
      FailStores(w, i, Error(g, "MFIAcquireFailed", Some(if w.remote.None? then "does not exist" else "already exists"), i.clock), false);
    }
  }

  /** So are a failed write and a failed read-back. */
  lemma WriteFailureReported(env: Env, w: World, i: PassInput)
    requires Served(w, i) && i.snapshot + 1 == |w.versions| && i.statusWrite.Fine? && i.dependency.None? && i.get.Fine?
    requires SecretOf(env, w, i).Some? && MayProceed(w, i) && NeedsWrite(env, w, i, SecretOf(env, w, i).value)
    ensures var g := w.versions[i.snapshot].spec.generation;
            var p := Pass(env, w, i);
            var cs := if p.world.versions == [] then [] else Latest(p.world).status.conditions;
            && (i.write.ErrBefore? || i.write.ErrAfter? ==>
                  !p.completed && Reports(cs, "Ready", False, "MFAWriteFailed", i.write.message, g))
            && (i.write.Fine? && (i.readBack.ErrBefore? || i.readBack.ErrAfter?) ==>
                  !p.completed && Reports(cs, "Ready", False, "MFAReadFailed", i.readBack.message, g))
  {
    hide Conditions.Apply, NeedsWrite, Desired, Merge, Hash, Visible, Reports, Fail, Finish;
    var obj := w.versions[i.snapshot];
    var g := obj.spec.generation;
    var secret := SecretOf(env, w, i).value;
    var stored := Merge(w.remote, Desired(env, obj.spec, secret));
    var w' := if i.write.TookEffect() then w.(remote := Some(stored), written := Some(secret)) else w;
    if i.write.ErrBefore? || i.write.ErrAfter? {
      FailStores(w', i, Error(g, "MFAWriteFailed", Some(i.write.message), i.clock), true);
    } else if i.readBack.ErrBefore? || i.readBack.ErrAfter? {
      FailStores(w', i, Error(g, "MFAReadFailed", Some(i.readBack.message), i.clock), true);
    }
  }
}
