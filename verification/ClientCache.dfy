/**
 `ConnectionClientCache`: one retained client per connection with dynamic login. The theorems
 compare every reply, over every history of calls, with building the client afresh.
 */
module ClientCache {
  import opened Kube
  import opened StringLists

  // ---------------------------------------------------------------------------
  // Connections and clients
  // ---------------------------------------------------------------------------

  datatype SecretRef = SecretRef(name: string, key: string)

  datatype KubernetesAuth = KubernetesAuth(mountPath: string, role: string)

  datatype AppRoleAuth = AppRoleAuth(mountPath: string, roleID: SecretRef, secretID: SecretRef)

  datatype ConnectionSpec = ConnectionSpec(
    address: string, baoNamespace: string, timeout: Option<int>, ca: Option<SecretRef>,
    kubernetes: Option<KubernetesAuth>, appRole: Option<AppRoleAuth>, token: Option<SecretRef>)

  datatype ObjectName = ObjectName(namespace: string, name: string)

  datatype Connection = Connection(id: ObjectName, spec: ConnectionSpec)

  /** The Secrets a call can read; a Secret that is absent or unreadable is not in the map. */
  type Secrets = map<ObjectName, map<string, string>>

  /** Where an AppRole client reads a credential at each login. */
  datatype CredentialSource = CredentialSource(secret: ObjectName, key: string)

  datatype Login =
    | StaticToken(token: string)
    | KubernetesLogin(mountPath: string, role: string)
    | AppRoleLogin(mountPath: string, roleID: CredentialSource, secretID: CredentialSource)

  datatype Config = Config(address: string, baoNamespace: string, timeout: int, ca: string, login: Login)

  /** A client object: two clients are the same object exactly when their serials agree. */
  datatype Client = Client(serial: nat, config: Config)

  function Default(value: string, fallback: string): string {
    if value == "" then fallback else value
  }

  /** `connectionRequestTimeout`, in nanoseconds. */
  function RequestTimeout(spec: ConnectionSpec): int {
    if spec.timeout.Some? && spec.timeout.value > 0 then spec.timeout.value else 30_000_000_000
  }

  /** The bytes under a key, empty when the key is missing. */
  function Data(secret: map<string, string>, key: string): string {
    if key in secret then secret[key] else ""
  }

  /** `connectionCABundle`: no reference means no bundle; an unreadable or empty one is an error. */
  function CABundle(c: Connection, secrets: Secrets): Option<string> {
    if c.spec.ca.None? then Some("")
    else
      var at := ObjectName(c.id.namespace, c.spec.ca.value.name);
      if at !in secrets then None
      else
        var bytes := Data(secrets[at], Default(c.spec.ca.value.key, "ca.crt"));
        if bytes == "" then None else Some(bytes)
  }

  predicate Dynamic(c: Connection) {
    c.spec.kubernetes.Some? || c.spec.appRole.Some?
  }

  /** The login a dynamic connection asks for; Kubernetes auth wins over AppRole. */
  function DynamicLogin(c: Connection): Login
    requires Dynamic(c)
  {
    if c.spec.kubernetes.Some? then
      KubernetesLogin(Default(c.spec.kubernetes.value.mountPath, "kubernetes"), c.spec.kubernetes.value.role)
    else
      var a := c.spec.appRole.value;
      AppRoleLogin(Default(a.mountPath, "approle"),
                   CredentialSource(ObjectName(c.id.namespace, a.roleID.name), Default(a.roleID.key, "role-id")),
                   CredentialSource(ObjectName(c.id.namespace, a.secretID.name), Default(a.secretID.key, "secret-id")))
  }

  /** The configuration of a dynamic connection with this CA bundle. */
  function DynamicConfig(c: Connection, ca: string): Config
    requires Dynamic(c)
  {
    Config(c.spec.address, c.spec.baoNamespace, RequestTimeout(c.spec), ca, DynamicLogin(c))
  }

  /** The static token, trimmed; an unreadable Secret or a blank token is an error. */
  function TokenLogin(c: Connection, secrets: Secrets): Option<Login> {
    if c.spec.token.None? then None
    else
      var at := ObjectName(c.id.namespace, c.spec.token.value.name);
      if at !in secrets then None
      else
        var token := TrimSpace(Data(secrets[at], Default(c.spec.token.value.key, "token")));
        if token == "" then None else Some(StaticToken(token))
  }

  /**
   `connectionClientFor`: the configuration of a client built from scratch. `accepts` stands for
   the constructors' checks of address, namespace, mount path, role and certificates.
   */
  function FreshBuild(accepts: Config -> bool, c: Connection, secrets: Secrets): Option<Config> {
    var ca := CABundle(c, secrets);
    if ca.None? then None
    else
      var login := if Dynamic(c) then Some(DynamicLogin(c)) else TokenLogin(c, secrets);
      if login.None? then None
      else
        var config := Config(c.spec.address, c.spec.baoNamespace, RequestTimeout(c.spec), ca.value, login.value);
        if accepts(config) then Some(config) else None
  }

  // ---------------------------------------------------------------------------
  // The cache
  // ---------------------------------------------------------------------------

  /** `authClientKey`. */
  datatype Key = Key(
    connection: ObjectName, authMethod: string, address: string, baoNamespace: string, mountPath: string,
    role: string, roleIDSecret: string, secretIDSecret: string, timeout: int, caDigest: string)

  datatype Entry = Entry(key: Key, client: Client)

  datatype Cache = Cache(entries: map<ObjectName, Entry>, built: nat)

  function Join(ref: SecretRef): string {
    ref.name + "#" + ref.key
  }

  function KeyOf(digest: string -> string, c: Connection, ca: string): Key
    requires Dynamic(c)
  {
    if c.spec.kubernetes.Some? then
      Key(c.id, "kubernetes", c.spec.address, c.spec.baoNamespace, c.spec.kubernetes.value.mountPath,
          c.spec.kubernetes.value.role, "", "", RequestTimeout(c.spec), digest(ca))
    else
      var a := c.spec.appRole.value;
      Key(c.id, "approle", c.spec.address, c.spec.baoNamespace, a.mountPath, "",
          Join(a.roleID), Join(a.secretID), RequestTimeout(c.spec), digest(ca))
  }

  datatype Lookup = Lookup(cache: Cache, reply: Option<Client>)

  function Build(accepts: Config -> bool, cache: Cache, config: Config): Option<Client> {
    if accepts(config) then Some(Client(cache.built, config)) else None
  }

  /** `ClientFor`. */
  function ClientFor(digest: string -> string, accepts: Config -> bool, cache: Cache, c: Connection, secrets: Secrets): Lookup {
    var ca := CABundle(c, secrets);
    if !Dynamic(c) then
      var config := FreshBuild(accepts, c, secrets);
      if config.None? then Lookup(cache, None)
      else Lookup(cache.(built := cache.built + 1), Some(Client(cache.built, config.value)))
    else if ca.None? then Lookup(cache, None)
    else
      var key := KeyOf(digest, c, ca.value);
      if c.id in cache.entries && cache.entries[c.id].key == key then Lookup(cache, Some(cache.entries[c.id].client))
      else
        var client := Build(accepts, cache, DynamicConfig(c, ca.value));
        if client.None? then Lookup(cache, None)
        else Lookup(Cache(cache.entries[c.id := Entry(key, client.value)], cache.built + 1), client)
  }

  class ConnectionClientCache {
    const digest: string -> string
    const accepts: Config -> bool
    var entries: map<ObjectName, Entry>
    var built: nat

    function Contents(): Cache
      reads this
    {
      Cache(entries, built)
    }

    constructor (digest: string -> string, accepts: Config -> bool)
      ensures this.digest == digest && this.accepts == accepts && Contents() == Cache(map[], 0)
    {
      this.digest, this.accepts, this.entries, this.built := digest, accepts, map[], 0;
    }

    /** `newClient` and its callers: a construction that fails leaves no object. */
    method NewClient(config: Config) returns (reply: Option<Client>)
      modifies this`built
      ensures reply == Build(accepts, old(Contents()), config)
      ensures built == if reply.Some? then old(built) + 1 else old(built)
    {
      if !accepts(config) { return None; }
      reply := Some(Client(built, config));
      built := built + 1;
    }

    method LookUp(c: Connection, secrets: Secrets) returns (reply: Option<Client>)
      modifies this
      ensures var l := ClientFor(digest, accepts, old(Contents()), c, secrets);
              Contents() == l.cache && reply == l.reply
    {
      var ca := CABundle(c, secrets);
      if c.spec.kubernetes.None? && c.spec.appRole.None? {
        if ca.None? { return None; }
        var login := TokenLogin(c, secrets);
        if login.None? { return None; }
        reply := NewClient(Config(c.spec.address, c.spec.baoNamespace, RequestTimeout(c.spec), ca.value, login.value));
        return;
      }
      if ca.None? { return None; }
      var key := Key(c.id, "", c.spec.address, c.spec.baoNamespace, "", "", "", "", RequestTimeout(c.spec), digest(ca.value));
      var login: Login;
      if c.spec.kubernetes.Some? {
        var auth := c.spec.kubernetes.value;
        key := key.(authMethod := "kubernetes", mountPath := auth.mountPath, role := auth.role);
        login := KubernetesLogin(Default(auth.mountPath, "kubernetes"), auth.role);
      } else {
        var auth := c.spec.appRole.value;
        key := key.(authMethod := "approle", mountPath := auth.mountPath);
        key := key.(roleIDSecret := auth.roleID.name + "#" + auth.roleID.key);
        key := key.(secretIDSecret := auth.secretID.name + "#" + auth.secretID.key);
        login := AppRoleLogin(Default(auth.mountPath, "approle"),
                              CredentialSource(ObjectName(c.id.namespace, auth.roleID.name), Default(auth.roleID.key, "role-id")),
                              CredentialSource(ObjectName(c.id.namespace, auth.secretID.name), Default(auth.secretID.key, "secret-id")));
      }
      if c.id in entries && entries[c.id].key == key { return Some(entries[c.id].client); }
      reply := NewClient(Config(c.spec.address, c.spec.baoNamespace, key.timeout, ca.value, login));
      if reply.Some? { entries := entries[c.id := Entry(key, reply.value)]; }
    }
  }

  // ---------------------------------------------------------------------------
  // The name#key encoding
  // ---------------------------------------------------------------------------

  /** What Kubernetes guarantees of a Secret name: it is a DNS subdomain and has no `#`. */
  predicate PlainName(s: string) { '#' !in s }

  lemma JoinSplits(a: SecretRef, b: SecretRef)
    requires Join(a) == Join(b) && PlainName(a.name) && |a.name| <= |b.name|
    ensures a == b || '#' in b.name
  {
    var j := Join(a);
    if |a.name| < |b.name| {
      assert j[|a.name|] == '#';
      assert Join(b)[|a.name|] == b.name[|a.name|];
    } else {
      assert a.name == j[..|a.name|] == Join(b)[..|b.name|] == b.name;
      assert a.key == j[|a.name| + 1..] == Join(b)[|b.name| + 1..] == b.key;
    }
  }

  /** For names without `#`, whatever the keys, the encoding decides the reference. */
  lemma JoinInjective(a: SecretRef, b: SecretRef)
    requires PlainName(a.name) && PlainName(b.name)
    ensures Join(a) == Join(b) <==> a == b
  {
    if Join(a) == Join(b) {
      if |a.name| <= |b.name| { JoinSplits(a, b); } else { JoinSplits(b, a); }
    }
  }

  /** A reference shares its encoding with a different one if and only if one of its parts contains `#`. */
  lemma AmbiguousIff(a: SecretRef)
    ensures (exists b :: b != a && Join(b) == Join(a)) <==> '#' in a.name || '#' in a.key
  {
    forall b | Join(b) == Join(a) ensures b == a || '#' in a.name || '#' in a.key {
      if |b.name| < |a.name| {
        assert a.name[|b.name|] == Join(a)[|b.name|] == Join(b)[|b.name|];
      } else if |a.name| < |b.name| {
        assert a.key[|b.name| - |a.name| - 1] == Join(a)[|b.name|] == Join(b)[|b.name|];
      } else {
        assert a.name == Join(a)[..|a.name|] == b.name;
        assert a.key == Join(a)[|a.name| + 1..] == b.key;
      }
    }
    if '#' in a.name {
      var i :| 0 <= i < |a.name| && a.name[i] == '#';
      var b := SecretRef(a.name[..i], a.name[i + 1..] + "#" + a.key);
      assert Join(b) == Join(a);
    }
    if '#' in a.key {
      var i :| 0 <= i < |a.key| && a.key[i] == '#';
      var b := SecretRef(a.name + "#" + a.key[..i], a.key[i + 1..]);
      assert Join(b) == Join(a);
    }
  }

  // ---------------------------------------------------------------------------
  // Every history of calls
  // ---------------------------------------------------------------------------

  datatype Call = Call(connection: Connection, secrets: Secrets)

  ghost predicate Injective(digest: string -> string) {
    forall a, b :: digest(a) == digest(b) ==> a == b
  }

  predicate PlainRefs(c: Connection) {
    c.spec.appRole.Some? ==> PlainName(c.spec.appRole.value.roleID.name) && PlainName(c.spec.appRole.value.secretID.name)
  }

  predicate AllPlain(calls: seq<Call>) {
    forall k :: 0 <= k < |calls| ==> PlainRefs(calls[k].connection)
  }

  /** The cache after a history of calls on an empty one. */
  function After(digest: string -> string, accepts: Config -> bool, calls: seq<Call>): Cache {
    if calls == [] then Cache(map[], 0)
    else
      var last := calls[|calls| - 1];
      ClientFor(digest, accepts, After(digest, accepts, calls[..|calls| - 1]), last.connection, last.secrets).cache
  }

  function Reply(digest: string -> string, accepts: Config -> bool, calls: seq<Call>, call: Call): Option<Client> {
    ClientFor(digest, accepts, After(digest, accepts, calls), call.connection, call.secrets).reply
  }

  /** Equal keys mean equal configurations. */
  lemma KeyDecidesConfig(digest: string -> string, c: Connection, ca: string, d: Connection, da: string)
    requires Injective(digest) && Dynamic(c) && Dynamic(d) && PlainRefs(c) && PlainRefs(d)
    requires KeyOf(digest, c, ca) == KeyOf(digest, d, da)
    ensures DynamicConfig(c, ca) == DynamicConfig(d, da) && c.id == d.id
  {
    assert c.spec.kubernetes.Some? <==> d.spec.kubernetes.Some? by {
      assert "kubernetes"[0] != "approle"[0];
    }
    if c.spec.kubernetes.None? {
      JoinInjective(c.spec.appRole.value.roleID, d.spec.appRole.value.roleID);
      JoinInjective(c.spec.appRole.value.secretID, d.spec.appRole.value.secretID);
    }
  }

  /** An entry holds an accepted client built for some connection and bundle under that very key. */
  ghost predicate Justified(digest: string -> string, accepts: Config -> bool, e: Entry) {
    exists c, ca :: Dynamic(c) && PlainRefs(c) && e.key == KeyOf(digest, c, ca)
                    && e.client.config == DynamicConfig(c, ca) && accepts(e.client.config)
  }

  ghost predicate CacheInv(digest: string -> string, accepts: Config -> bool, cache: Cache) {
    forall n :: n in cache.entries ==>
      Justified(digest, accepts, cache.entries[n]) && cache.entries[n].client.serial < cache.built
  }

  lemma ClientForKeepsInv(digest: string -> string, accepts: Config -> bool, cache: Cache, call: Call)
    requires Injective(digest) && CacheInv(digest, accepts, cache) && PlainRefs(call.connection)
    ensures var l := ClientFor(digest, accepts, cache, call.connection, call.secrets);
            CacheInv(digest, accepts, l.cache)
  {
    hide CABundle, TokenLogin, DynamicConfig, KeyOf;
    var c := call.connection;
    var ca := CABundle(c, call.secrets);
    if Dynamic(c) && ca.Some? {
      var e := Entry(KeyOf(digest, c, ca.value), Client(cache.built, DynamicConfig(c, ca.value)));
      assert accepts(e.client.config) ==> Justified(digest, accepts, e);
    }
  }

  lemma {:induction false} AfterHasInv(digest: string -> string, accepts: Config -> bool, calls: seq<Call>)
    requires Injective(digest) && AllPlain(calls)
    ensures CacheInv(digest, accepts, After(digest, accepts, calls))
  {
    hide ClientFor;
    if calls != [] {
      AfterHasInv(digest, accepts, calls[..|calls| - 1]);
      ClientForKeepsInv(digest, accepts, After(digest, accepts, calls[..|calls| - 1]), calls[|calls| - 1]);
    }
  }

  /**
   Cache agreement. After any history of calls, with any changes of specs, Secrets and CA bundles
   and any failed constructions in between, a call answers exactly as a fresh build from the
   caller's own snapshot would: it fails when that fails, and otherwise has that configuration.
   */
  lemma AgreesWithFreshBuild(digest: string -> string, accepts: Config -> bool, calls: seq<Call>, call: Call)
    requires Injective(digest) && AllPlain(calls) && PlainRefs(call.connection)
    ensures var reply := Reply(digest, accepts, calls, call);
            var built := FreshBuild(accepts, call.connection, call.secrets);
            && (reply.Some? <==> built.Some?)
            && (reply.Some? ==> reply.value.config == built.value)
  {
    hide CABundle, TokenLogin, KeyOf, DynamicLogin;
    AfterHasInv(digest, accepts, calls);
    var cache := After(digest, accepts, calls);
    var c := call.connection;
    var ca := CABundle(c, call.secrets);
    if Dynamic(c) && ca.Some? && c.id in cache.entries && cache.entries[c.id].key == KeyOf(digest, c, ca.value) {
      var e := cache.entries[c.id];
      assert Justified(digest, accepts, e);
      var d, da :| Dynamic(d) && PlainRefs(d) && e.key == KeyOf(digest, d, da)
                   && e.client.config == DynamicConfig(d, da) && accepts(e.client.config);
      KeyDecidesConfig(digest, c, ca.value, d, da);
    }
  }

  /** `text` is what the referenced Secret holds under the key, or under the default key if none is given. */
  ghost predicate Reads(c: Connection, secrets: Secrets, ref: SecretRef, fallback: string, text: string) {
    var at := ObjectName(c.id.namespace, ref.name);
    var key := if ref.key == "" then fallback else ref.key;
    at in secrets && key in secrets[at] && secrets[at][key] == text
  }

  /** The source reads, at each login, the Secret and key that the reference names. */
  ghost predicate Names(c: Connection, source: CredentialSource, ref: SecretRef, fallback: string) {
    && source.secret == ObjectName(c.id.namespace, ref.name)
    && source.key == if ref.key == "" then fallback else ref.key
  }

  /** Every field of the configuration, read off the connection and the Secrets. */
  ghost predicate AsSpecified(c: Connection, secrets: Secrets, f: Config) {
    && f.address == c.spec.address && f.baoNamespace == c.spec.baoNamespace
    && f.timeout == (if c.spec.timeout.Some? && c.spec.timeout.value > 0 then c.spec.timeout.value else 30_000_000_000)
    && (c.spec.ca.None? ==> f.ca == "")
    && (c.spec.ca.Some? ==> f.ca != "" && Reads(c, secrets, c.spec.ca.value, "ca.crt", f.ca))
    && (c.spec.kubernetes.Some? ==>
          && f.login.KubernetesLogin? && f.login.role == c.spec.kubernetes.value.role
          && f.login.mountPath == (if c.spec.kubernetes.value.mountPath == "" then "kubernetes" else c.spec.kubernetes.value.mountPath))
    && (c.spec.kubernetes.None? && c.spec.appRole.Some? ==>
          && f.login.AppRoleLogin?
          && f.login.mountPath == (if c.spec.appRole.value.mountPath == "" then "approle" else c.spec.appRole.value.mountPath)
          && Names(c, f.login.roleID, c.spec.appRole.value.roleID, "role-id")
          && Names(c, f.login.secretID, c.spec.appRole.value.secretID, "secret-id"))
    && (c.spec.kubernetes.None? && c.spec.appRole.None? ==>
          && f.login.StaticToken? && f.login.token != "" && c.spec.token.Some?
          && exists text :: Reads(c, secrets, c.spec.token.value, "token", text) && f.login.token == TrimSpace(text))
  }

  lemma BuiltAsSpecified(accepts: Config -> bool, c: Connection, secrets: Secrets, f: Config)
    ensures FreshBuild(accepts, c, secrets) == Some(f) <==> AsSpecified(c, secrets, f) && accepts(f)
  {
    hide TrimSpace;
    if c.spec.token.Some? {
      var at := ObjectName(c.id.namespace, c.spec.token.value.name);
      var key := if c.spec.token.value.key == "" then "token" else c.spec.token.value.key;
      if at in secrets && key in secrets[at] {
        assert Reads(c, secrets, c.spec.token.value, "token", secrets[at][key]);
      }
      assert TrimSpace("") == "" by { TrimSpaceOfEmpty(); }
    }
    if AsSpecified(c, secrets, f) && c.spec.kubernetes.None? && c.spec.appRole.Some? {
      assert f.login.roleID == CredentialSource(f.login.roleID.secret, f.login.roleID.key);
      assert f.login.secretID == CredentialSource(f.login.secretID.secret, f.login.secretID.key);
    }
  }

  lemma TrimSpaceOfEmpty()
    ensures TrimSpace("") == ""
  {
  }

  /**
   What a caller gets, after any history: a client whose address, namespace, timeout, certificates
   and login come from the caller's own spec and Secrets, or no client, exactly when no acceptable
   configuration can be read from them.
   */
  lemma ReplyAsSpecified(digest: string -> string, accepts: Config -> bool, calls: seq<Call>, call: Call)
    requires Injective(digest) && AllPlain(calls) && PlainRefs(call.connection)
    ensures var reply := Reply(digest, accepts, calls, call);
            && (reply.Some? ==> AsSpecified(call.connection, call.secrets, reply.value.config) && accepts(reply.value.config))
            && (reply.None? ==> forall f :: AsSpecified(call.connection, call.secrets, f) ==> !accepts(f))
  {
    hide FreshBuild, AsSpecified, ClientFor;
    AgreesWithFreshBuild(digest, accepts, calls, call);
    forall f { BuiltAsSpecified(accepts, call.connection, call.secrets, f); }
  }

  /** Calls that leave this connection's client alone: others' calls, the same key, or no client built. */
  ghost predicate Undisturbed(digest: string -> string, accepts: Config -> bool, id: ObjectName, key: Key, call: Call) {
    || call.connection.id != id
    || !Dynamic(call.connection)
    || FreshBuild(accepts, call.connection, call.secrets).None?
    || (CABundle(call.connection, call.secrets).Some?
        && KeyOf(digest, call.connection, CABundle(call.connection, call.secrets).value) == key)
  }

  lemma {:induction false} EntryStays(digest: string -> string, accepts: Config -> bool, calls: seq<Call>, more: seq<Call>, e: Entry, id: ObjectName)
    requires id in After(digest, accepts, calls).entries && After(digest, accepts, calls).entries[id] == e
    requires forall k :: 0 <= k < |more| ==> Undisturbed(digest, accepts, id, e.key, more[k])
    ensures id in After(digest, accepts, calls + more).entries && After(digest, accepts, calls + more).entries[id] == e
    decreases |more|
  {
    hide CABundle, TokenLogin, KeyOf, DynamicLogin;
    if more == [] {
      assert calls + more == calls;
    } else {
      var n := |more| - 1;
      EntryStays(digest, accepts, calls, more[..n], e, id);
      var all := calls + more;
      assert all[..|all| - 1] == calls + more[..n] && all[|all| - 1] == more[n];
      assert Undisturbed(digest, accepts, id, e.key, more[n]);
    }
  }

  /**
   An unchanged key keeps its client object, and with it the token lease: whatever happened
   before, if between two calls with the same key no call built this connection's client under
   another key, both get the same object.
   */
  lemma SameKeySameClient(digest: string -> string, accepts: Config -> bool, calls: seq<Call>, first: Call, between: seq<Call>, second: Call)
    requires Dynamic(first.connection) && Dynamic(second.connection)
    requires Reply(digest, accepts, calls, first).Some? && CABundle(first.connection, first.secrets).Some?
    requires CABundle(second.connection, second.secrets).Some?
    requires KeyOf(digest, first.connection, CABundle(first.connection, first.secrets).value)
             == KeyOf(digest, second.connection, CABundle(second.connection, second.secrets).value)
    requires forall k :: 0 <= k < |between| ==>
               Undisturbed(digest, accepts, first.connection.id,
                           KeyOf(digest, first.connection, CABundle(first.connection, first.secrets).value), between[k])
    ensures Reply(digest, accepts, calls + [first] + between, second) == Reply(digest, accepts, calls, first)
  {
    hide CABundle, TokenLogin, DynamicLogin;
    var all := calls + [first];
    assert all[..|all| - 1] == calls;
    var id := first.connection.id;
    var key := KeyOf(digest, first.connection, CABundle(first.connection, first.secrets).value);
    var reply := Reply(digest, accepts, calls, first);
    assert id in After(digest, accepts, all).entries && After(digest, accepts, all).entries[id] == Entry(key, reply.value);
    EntryStays(digest, accepts, all, between, Entry(key, reply.value), id);
  }

  /** Two references that only differ in where the `#` sits get one cached client for two configurations. */
  lemma HashInNameConfuses(digest: string -> string, secrets: Secrets)
    ensures var accepts := (config: Config) => true;
            var spec := (r: SecretRef) =>
              ConnectionSpec("https://bao", "", None, None, None, Some(AppRoleAuth("", r, SecretRef("s", ""))), None);
            var first := Call(Connection(ObjectName("ns", "c"), spec(SecretRef("a#b", "c"))), secrets);
            var second := Call(Connection(ObjectName("ns", "c"), spec(SecretRef("a", "b#c"))), secrets);
            && Reply(digest, accepts, [first], second) == Reply(digest, accepts, [], first)
            && Reply(digest, accepts, [first], second).Some?
            && Some(Reply(digest, accepts, [first], second).value.config) != FreshBuild(accepts, second.connection, secrets)
  {
    var accepts := (config: Config) => true;
    var spec := (r: SecretRef) =>
      ConnectionSpec("https://bao", "", None, None, None, Some(AppRoleAuth("", r, SecretRef("s", ""))), None);
    var first := Call(Connection(ObjectName("ns", "c"), spec(SecretRef("a#b", "c"))), secrets);
    assert Join(SecretRef("a#b", "c")) == "a#b#c" == Join(SecretRef("a", "b#c"));
    assert [first][..0] == [];
    assert "a#b" != "a";
    assert After(digest, accepts, []) == Cache(map[], 0);
  }
}
