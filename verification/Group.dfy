/**
 `OpenBaoGroupReconciler`: one pass over one OpenBaoGroup, as a function of the OpenBao groups,
 the stored object versions, the membership view served by the cache, and what every call does.
 */
module Group {
  import opened Kube
  import opened StringLists
  import opened Conditions

  // ---------------------------------------------------------------------------
  // Data
  // ---------------------------------------------------------------------------

  datatype GroupType = Internal | External

  /** An OpenBao identity group; `GroupRequest` has the same mutable fields. */
  datatype RemoteGroup = RemoteGroup(
    name: string, typ: string, metadata: map<string, string>, policies: seq<string>,
    entities: seq<string>, groups: seq<string>)

  type Remote = map<string, RemoteGroup>

  datatype Kind = Entity | Subgroup

  datatype GroupSpec = GroupSpec(
    typ: GroupType, metadata: map<string, string>, policies: seq<string>, creation: CreationPolicy)

  datatype GroupStatus = GroupStatus(
    id: string, managedEntities: seq<string>, managedGroups: seq<string>, conditions: seq<Condition>)

  /** One stored version of the Kubernetes object; an update only succeeds on the newest version. */
  datatype GroupObject = GroupObject(generation: int, spec: GroupSpec, status: GroupStatus)

  datatype Membership = Membership(
    name: string, groupRef: string, entityRef: Option<string>, memberGroupRef: Option<string>)

  /** What a claim needs to know of the OpenBaoEntity or OpenBaoGroup it points at. */
  datatype Dependency = Dependency(ready: bool, id: string)

  /** The same-namespace objects a pass reads. */
  datatype View = View(
    memberships: seq<Membership>, entities: map<string, Dependency>, groups: map<string, Dependency>)

  datatype Claim = Claim(kind: Kind, id: string)

  function MemberList(g: RemoteGroup, kind: Kind): seq<string> {
    if kind == Entity then g.entities else g.groups
  }

  function ManagedList(s: GroupStatus, kind: Kind): seq<string> {
    if kind == Entity then s.managedEntities else s.managedGroups
  }

  /** The members OpenBao holds for a group ID; none when the group does not exist. */
  ghost function Members(remote: Remote, id: string, kind: Kind): set<string> {
    if id in remote then Elems(MemberList(remote[id], kind)) else {}
  }

  ghost function Managed(s: GroupStatus, kind: Kind): set<string> {
    Elems(ManagedList(s, kind))
  }

  // ---------------------------------------------------------------------------
  // Membership claims
  // ---------------------------------------------------------------------------

  function ForGroup(name: string, ms: seq<Membership>): seq<Membership> {
    if ms == [] then []
    else ForGroup(name, ms[..|ms| - 1]) + if ms[|ms| - 1].groupRef == name then [ms[|ms| - 1]] else []
  }

  function InsertByName(m: Membership, ms: seq<Membership>): seq<Membership> {
    if ms == [] || StrLess(m.name, ms[0].name) then [m] + ms else [ms[0]] + InsertByName(m, ms[1..])
  }

  /** `slices.SortFunc` by name. */
  function SortByName(ms: seq<Membership>): seq<Membership> {
    if ms == [] then [] else InsertByName(ms[0], SortByName(ms[1..]))
  }

  datatype Resolution =
    | Resolved(claims: seq<Claim>)
    | Unresolved(dependency: bool, message: string)

  function ResolveDependency(kind: Kind, deps: map<string, Dependency>, target: string): Resolution {
    if target !in deps then Unresolved(true, "not found")
    else if !deps[target].ready || deps[target].id == "" then Unresolved(true, "not ready")
    else Resolved([Claim(kind, deps[target].id)])
  }

  /** One iteration of `resolveMemberships`. */
  function ResolveOne(name: string, v: View, m: Membership): (r: Resolution)
    ensures r.Resolved? ==> |r.claims| == 1
  {
    if m.entityRef.None? == m.memberGroupRef.None? then
      Unresolved(false, "exactly one of entityRef or memberGroupRef must be set")
    else if m.entityRef.Some? then ResolveDependency(Entity, v.entities, m.entityRef.value)
    else if m.memberGroupRef.value == name then Unresolved(false, "a group cannot be a member of itself")
    else ResolveDependency(Subgroup, v.groups, m.memberGroupRef.value)
  }

  /** The first membership that cannot be resolved decides; otherwise one claim per membership. */
  function ResolveAll(name: string, v: View, ms: seq<Membership>): Resolution {
    if ms == [] then Resolved([])
    else
      var before := ResolveAll(name, v, ms[..|ms| - 1]);
      if before.Unresolved? then before
      else
        var last := ResolveOne(name, v, ms[|ms| - 1]);
        if last.Unresolved? then last else Resolved(before.claims + last.claims)
  }

  function Resolve(name: string, typ: GroupType, v: View): Resolution {
    var ms := SortByName(ForGroup(name, v.memberships));
    if ms == [] then Resolved([])
    else if typ == External then Unresolved(false, "external groups do not take memberships")
    else ResolveAll(name, v, ms)
  }

  /** Membership `m` claims `x` for the group. */
  predicate Claims(name: string, v: View, m: Membership, kind: Kind, x: string) {
    m.groupRef == name && ResolveOne(name, v, m) == Resolved([Claim(kind, x)])
  }

  /** Some membership in the view claims `x` for the group. */
  predicate Claimed(name: string, v: View, kind: Kind, x: string) {
    exists m :: m in v.memberships && Claims(name, v, m, kind, x)
  }

  // ---------------------------------------------------------------------------
  // The desired group
  // ---------------------------------------------------------------------------

  function Subtract(source: seq<string>, values: seq<string>): seq<string> {
    if source == [] then []
    else Subtract(source[..|source| - 1], values)
         + if source[|source| - 1] in values then [] else [source[|source| - 1]]
  }

  function ClaimIDs(claims: seq<Claim>, kind: Kind): seq<string> {
    if claims == [] then []
    else ClaimIDs(claims[..|claims| - 1], kind)
         + if claims[|claims| - 1].kind == kind then [claims[|claims| - 1].id] else []
  }

  function TypeName(typ: GroupType): string {
    if typ == Internal then "internal" else "external"
  }

  function Desired(name: string, spec: GroupSpec, status: GroupStatus, observed: Option<RemoteGroup>, claims: seq<Claim>)
    : RemoteGroup
  {
    var entities := if observed.Some? then observed.value.entities else [];
    var groups := if observed.Some? then observed.value.groups else [];
    RemoteGroup(name, TypeName(spec.typ), spec.metadata, Normalize(spec.policies),
                Normalize(Subtract(entities, status.managedEntities) + ClaimIDs(claims, Entity)),
                Normalize(Subtract(groups, status.managedGroups) + ClaimIDs(claims, Subgroup)))
  }

  function LowerChar(c: char): char {
    if 'A' <= c <= 'Z' then (c as int + 32) as char else c
  }

  /** `strings.EqualFold` against a lower-case ASCII type name. */
  predicate FoldsTo(s: string, lower: string) {
    |s| == |lower| && forall i :: 0 <= i < |s| ==> LowerChar(s[i]) == lower[i]
  }

  predicate GroupMatches(desired: RemoteGroup, current: RemoteGroup) {
    && current.name == desired.name
    && FoldsTo(current.typ, desired.typ)
    && current.metadata == desired.metadata
    && Normalize(current.policies) == desired.policies
    && Normalize(current.entities) == desired.entities
    && Normalize(current.groups) == desired.groups
  }

  // ---------------------------------------------------------------------------
  // One pass
  // ---------------------------------------------------------------------------

  /** Which versions a pass reads and what each of its calls does. */
  datatype PassInput = PassInput(
    snapshot: nat,                 // object version served by the cache
    view: nat,                     // membership view served by the cache
    dependency: Option<string>,    // the connection or its client is unavailable
    getByID: Fault,
    getByName: Fault, nameHit: Option<string>, nameHasID: bool,
    create: Fault, newID: string, createHasID: bool, getCreated: Fault,
    listing: Fault,                // membership list and membership status writes
    update: Fault, readBack: Fault,
    statusWrite: Fault,
    clock: int)

  datatype Acquisition =
    | Bound(id: string, observed: RemoteGroup, remote: Remote)
    | NotBound(id: string, message: string, remote: Remote)
    | Died(remote: Remote)

  /** What the server may answer to a by-name read and to a create. */
  predicate FaithfulReplies(name: string, remote: Remote, i: PassInput) {
    && (i.nameHit.Some? ==> i.nameHit.value != "" && i.nameHit.value in remote && remote[i.nameHit.value].name == name)
    && (i.nameHit.None? ==> forall id :: id in remote ==> remote[id].name != name)
    && i.newID != "" && i.newID !in remote
  }

  function AcquireByName(name: string, spec: GroupSpec, status: GroupStatus, remote: Remote, i: PassInput): Acquisition
    requires FaithfulReplies(name, remote, i)
  {
    if i.getByName.Crashed() then Died(remote)
    else if !i.getByName.Fine? then NotBound("", i.getByName.message, remote)
    else if i.nameHit.Some? then
      if !spec.creation.AllowsAdoption() then NotBound("", "already exists", remote)
      else if !i.nameHasID then NotBound("", "reply without an ID", remote)
      else Bound(i.nameHit.value, remote[i.nameHit.value], remote)
    else if !spec.creation.AllowsCreation() then NotBound("", "does not exist", remote)
    else
      var request := Desired(name, spec, status, None, []);
      var remote' := if i.create.TookEffect() then remote[i.newID := request] else remote;
      if i.create.Crashed() then Died(remote')
      else if !i.create.Fine? then NotBound("", i.create.message, remote')
      else if !i.createHasID then NotBound("", "empty ID", remote')
      else if i.getCreated.Crashed() then Died(remote')
      else if !i.getCreated.Fine? then NotBound(i.newID, i.getCreated.message, remote')
      else Bound(i.newID, request, remote')
  }

  function Acquire(name: string, spec: GroupSpec, status: GroupStatus, remote: Remote, i: PassInput): Acquisition
    requires FaithfulReplies(name, remote, i)
  {
    if status.id == "" then AcquireByName(name, spec, status, remote, i)
    else if i.getByID.Crashed() then Died(remote)
    else if !i.getByID.Fine? then NotBound(status.id, i.getByID.message, remote)
    else if status.id in remote then Bound(status.id, remote[status.id], remote)
    else AcquireByName(name, spec, status.(id := ""), remote, i)
  }

  /** `updateStatusIfChanged`: a write is sent only on change and only lands on the newest version. */
  function Persist(objects: seq<GroupObject>, snapshot: nat, before: GroupStatus, after: GroupStatus, f: Fault)
    : (r: (seq<GroupObject>, bool))
    requires snapshot < |objects|
  {
    if before == after then (objects, true)
    else if snapshot + 1 != |objects| then (objects, false)
    else (if f.TookEffect() then objects + [objects[snapshot].(status := after)] else objects, f.Fine?)
  }

  /**
   The end of a pass. `base`: OpenBao after `acquire`; `target`: the bound group; `reached`: the
   claims were resolved; `updates`: `UpdateGroup` calls sent; `recorded`: the newest stored
   version now carries the claims as managed.
   */
  datatype PassResult = PassResult(
    base: Remote, remote: Remote, objects: seq<GroupObject>, target: string, claims: seq<Claim>,
    reached: bool, updates: nat, recorded: bool, completed: bool)

  function Stop(remote: Remote, objects: seq<GroupObject>): PassResult {
    PassResult(remote, remote, objects, "", [], false, 0, false, false)
  }

  /** `fail` and `dependencyFailure`: they compare against a copy taken after `acquire` changed the ID. */
  function Failed(remote: Remote, objects: seq<GroupObject>, i: PassInput, status: GroupStatus, m: Mark): PassResult
    requires i.snapshot < |objects|
  {
    var marked := status.(conditions := Conditions.Apply(status.conditions, m));
    Stop(remote, Persist(objects, i.snapshot, status, marked, i.statusWrite).0)
  }

  function Observed(status: GroupStatus, generation: int, claims: seq<Claim>, clock: int): GroupStatus {
    status.(managedEntities := Normalize(ClaimIDs(claims, Entity)),
            managedGroups := Normalize(ClaimIDs(claims, Subgroup)),
            conditions := Conditions.Apply(status.conditions,
                                           Ready(generation, "OpenBao group is reconciled", clock, clock)))
  }

  /** From `observeGroupStatus` to the status write. */
  function Finish(base: Remote, remote: Remote, objects: seq<GroupObject>, i: PassInput, status: GroupStatus,
                  claims: seq<Claim>, updates: nat): PassResult
    requires i.snapshot < |objects|
  {
    var obj := objects[i.snapshot];
    var after := Observed(status, obj.generation, claims, i.clock);
    var stored := Persist(objects, i.snapshot, obj.status, after, i.statusWrite);
    var landed := i.snapshot + 1 == |objects| && (obj.status == after || i.statusWrite.TookEffect());
    PassResult(base, remote, stored.0, status.id, claims, true, updates, landed, stored.1)
  }

  /** From the membership list to the end, for a bound group. */
  function Converge(name: string, remote: Remote, objects: seq<GroupObject>, v: View, i: PassInput,
                    status: GroupStatus, observed: RemoteGroup): PassResult
    requires i.snapshot < |objects|
  {
    var obj := objects[i.snapshot];
    var g := obj.generation;
    if observed.name != "" && observed.name != name then
      Failed(remote, objects, i, status, Error(g, "GroupIdentityMismatch", Some(observed.name), i.clock))
    else if i.listing.Crashed() then Stop(remote, objects)
    else if !i.listing.Fine? then
      Failed(remote, objects, i, status, Error(g, "GroupMembershipReadFailed", Some(i.listing.message), i.clock))
    else
      match Resolve(name, obj.spec.typ, v)
      case Unresolved(true, message) =>
        Failed(remote, objects, i, status, Stalled(g, "DependencyNotReady", Some(message), i.clock, i.clock))
      case Unresolved(false, message) =>
        Failed(remote, objects, i, status, Error(g, "GroupMembershipResolutionFailed", Some(message), i.clock))
      case Resolved(claims) =>
        var desired := Desired(name, obj.spec, status, Some(observed), claims);
        if GroupMatches(desired, observed) then Finish(remote, remote, objects, i, status, claims, 0)
        else
          var remote' := if i.update.TookEffect() then remote[status.id := desired] else remote;
          var sent := PassResult(remote, remote', objects, status.id, claims, true, 1, false, false);
          if i.update.Crashed() then sent
          else if !i.update.Fine? then
            sent.(objects := Failed(remote', objects, i, status,
                                    Error(g, "GroupUpdateFailed", Some(i.update.message), i.clock)).objects)
          else if i.readBack.Crashed() then sent
          else if !i.readBack.Fine? then
            sent.(objects := Failed(remote', objects, i, status,
                                    Error(g, "GroupReadFailed", Some(i.readBack.message), i.clock)).objects)
          else Finish(remote, remote', objects, i, status, claims, 1)
  }

  /** `Reconcile` for an object that is not being deleted. */
  function Pass(name: string, remote: Remote, objects: seq<GroupObject>, v: View, i: PassInput): PassResult
    requires i.snapshot < |objects|
    requires FaithfulReplies(name, remote, i)
  {
    var obj := objects[i.snapshot];
    if i.dependency.Some? then
      Failed(remote, objects, i, obj.status,
             Stalled(obj.generation, "DependencyNotReady", i.dependency, i.clock, i.clock))
    else
      match Acquire(name, obj.spec, obj.status, remote, i)
      case Died(remote') => Stop(remote', objects)
      case NotBound(id, message, remote') =>
        Failed(remote', objects, i, obj.status.(id := id),
               Error(obj.generation, "GroupAcquireFailed", Some(message), i.clock))
      case Bound(id, observed, remote') =>
        Converge(name, remote', objects, v, i, obj.status.(id := id), observed)
  }

  // ---------------------------------------------------------------------------
  // The loops of the controller
  // ---------------------------------------------------------------------------

  /** `subtractIDs`. */
  method SubtractIDs(source: seq<string>, values: seq<string>) returns (result: seq<string>)
    ensures result == Subtract(source, values)
    ensures Elems(result) == Elems(source) - Elems(values)
  {
    result := [];
    for k := 0 to |source|
      invariant result == Subtract(source[..k], values)
    {
      assert source[..k + 1][..k] == source[..k];
      if source[k] !in values {
        result := result + [source[k]];
      }
    }
    assert source[..|source|] == source;
    SubtractElems(source, values);
  }

  /** `managedMemberIDs`. */
  method ManagedMemberIDs(claims: seq<Claim>) returns (entities: seq<string>, groups: seq<string>)
    ensures entities == ClaimIDs(claims, Entity) && groups == ClaimIDs(claims, Subgroup)
  {
    entities, groups := [], [];
    for k := 0 to |claims|
      invariant entities == ClaimIDs(claims[..k], Entity) && groups == ClaimIDs(claims[..k], Subgroup)
    {
      assert claims[..k + 1][..k] == claims[..k];
      if claims[k].kind == Entity {
        entities := entities + [claims[k].id];
      } else {
        groups := groups + [claims[k].id];
      }
    }
    assert claims[..|claims|] == claims;
  }

  /** `desiredGroupRequest`: subtract what was managed, then append every claim. */
  method DesiredGroupRequest(name: string, spec: GroupSpec, status: GroupStatus, observed: Option<RemoteGroup>,
                             claims: seq<Claim>) returns (request: RemoteGroup)
    ensures request == Desired(name, spec, status, observed, claims)
  {
    var entities := SubtractIDs(if observed.Some? then observed.value.entities else [], status.managedEntities);
    var groups := SubtractIDs(if observed.Some? then observed.value.groups else [], status.managedGroups);
    ghost var e0, g0 := entities, groups;
    for k := 0 to |claims|
      invariant entities == e0 + ClaimIDs(claims[..k], Entity)
      invariant groups == g0 + ClaimIDs(claims[..k], Subgroup)
    {
      assert claims[..k + 1][..k] == claims[..k];
      if claims[k].kind == Entity {
        entities := entities + [claims[k].id];
      } else {
        groups := groups + [claims[k].id];
      }
    }
    assert claims[..|claims|] == claims;
    request := RemoteGroup(name, TypeName(spec.typ), spec.metadata, Normalize(spec.policies),
                           Normalize(entities), Normalize(groups));
  }

  ghost predicate InNameOrder(ms: seq<Membership>) {
    forall i, j :: 0 <= i < j < |ms| ==> ms[i].name == ms[j].name || StrLess(ms[i].name, ms[j].name)
  }

  /** `membershipsForGroup`: the memberships that name the group, in name order. */
  method MembershipsForGroup(name: string, all: seq<Membership>) returns (result: seq<Membership>)
    ensures result == SortByName(ForGroup(name, all))
    ensures forall m :: m in result <==> m in all && m.groupRef == name
    ensures InNameOrder(result) && |result| <= |all|
  {
    result := [];
    for k := 0 to |all|
      invariant result == ForGroup(name, all[..k])
    {
      assert all[..k + 1][..k] == all[..k];
      if all[k].groupRef == name {
        result := result + [all[k]];
      }
    }
    assert all[..|all|] == all;
    ForGroupElems(name, all);
    ForGroupShorter(name, all);
    SortByNameSorts(result);
    result := SortByName(result);
  }

  /**
   `resolveMemberships`: stops at the first membership that cannot be resolved. When it succeeds
   the claims are exactly what the memberships of the group claim.
   */
  method ResolveMemberships(name: string, typ: GroupType, v: View) returns (r: Resolution)
    ensures r == Resolve(name, typ, v)
    ensures r.Resolved? ==> forall kind, x :: Claim(kind, x) in r.claims <==> Claimed(name, v, kind, x)
  {
    hide Claimed, ResolveOne, SortByName, ForGroup, InNameOrder;
    var ms := MembershipsForGroup(name, v.memberships);
    ResolveIsExact(name, typ, v);
    if ms == [] { return Resolved([]); }
    if typ == External { return Unresolved(false, "external groups do not take memberships"); }
    var claims := [];
    for k := 0 to |ms|
      invariant ResolveAll(name, v, ms[..k]) == Resolved(claims)
    {
      assert ms[..k + 1][..k] == ms[..k];
      var one := ResolveOne(name, v, ms[k]);
      if one.Unresolved? {
        UnresolvedPrefix(name, v, ms, k + 1);
        return one;
      }
      claims := claims + one.claims;
    }
    assert ms[..|ms|] == ms;
    r := Resolved(claims);
  }

  // ---------------------------------------------------------------------------
  // Lemmas about the loops
  // ---------------------------------------------------------------------------

  lemma {:induction false} SubtractElems(source: seq<string>, values: seq<string>)
    ensures Elems(Subtract(source, values)) == Elems(source) - Elems(values)
  {
    if source != [] {
      var n := |source| - 1;
      SubtractElems(source[..n], values);
      assert source == source[..n] + [source[n]];
      assert forall x :: x in Subtract(source[..n], values) <==> x in Elems(Subtract(source[..n], values));
      assert forall x :: x in source[..n] <==> x in Elems(source[..n]);
    }
  }

  lemma {:induction false} ClaimIDsElems(claims: seq<Claim>, kind: Kind)
    ensures forall x :: x in ClaimIDs(claims, kind) <==> Claim(kind, x) in claims
  {
    if claims != [] {
      var n := |claims| - 1;
      ClaimIDsElems(claims[..n], kind);
      assert claims == claims[..n] + [claims[n]];
    }
  }

  lemma {:induction false} ForGroupElems(name: string, ms: seq<Membership>)
    ensures forall m :: m in ForGroup(name, ms) <==> m in ms && m.groupRef == name
  {
    if ms != [] {
      var n := |ms| - 1;
      ForGroupElems(name, ms[..n]);
      assert ms == ms[..n] + [ms[n]];
    }
  }

  lemma {:induction false} ForGroupShorter(name: string, ms: seq<Membership>)
    ensures |ForGroup(name, ms)| <= |ms|
  {
    if ms != [] { ForGroupShorter(name, ms[..|ms| - 1]); }
  }

  lemma {:induction false} InsertByNameKeeps(m: Membership, ms: seq<Membership>)
    requires InNameOrder(ms)
    ensures InNameOrder(InsertByName(m, ms)) && |InsertByName(m, ms)| == |ms| + 1
    ensures forall x :: x in InsertByName(m, ms) <==> x == m || x in ms
  {
    hide StrLess;
    if ms == [] {
    } else if StrLess(m.name, ms[0].name) {
      forall j | 0 <= j < |ms| ensures StrLess(m.name, ms[j].name) {
        if ms[j].name != ms[0].name { StrLessTransitive(m.name, ms[0].name, ms[j].name); }
      }
    } else {
      var rest := InsertByName(m, ms[1..]);
      InsertByNameKeeps(m, ms[1..]);
      StrLessTrichotomy(m.name, ms[0].name);
      assert ms == [ms[0]] + ms[1..];
      forall j | 0 <= j < |rest| ensures ms[0].name == rest[j].name || StrLess(ms[0].name, rest[j].name) {
        assert rest[j] in rest;
        if rest[j] != m {
          var k :| 0 <= k < |ms[1..]| && ms[1..][k] == rest[j];
          assert ms[k + 1] == rest[j];
        }
      }
    }
  }

  /** Sorting keeps the memberships and puts them in name order. */
  lemma {:induction false} SortByNameSorts(ms: seq<Membership>)
    ensures InNameOrder(SortByName(ms)) && |SortByName(ms)| == |ms|
    ensures forall x :: x in SortByName(ms) <==> x in ms
  {
    if ms != [] {
      SortByNameSorts(ms[1..]);
      InsertByNameKeeps(ms[0], SortByName(ms[1..]));
      assert ms == [ms[0]] + ms[1..];
    }
  }

  /** An unresolved prefix decides the whole list. */
  lemma {:induction false} UnresolvedPrefix(name: string, v: View, ms: seq<Membership>, k: nat)
    requires k <= |ms| && ResolveAll(name, v, ms[..k]).Unresolved?
    ensures ResolveAll(name, v, ms) == ResolveAll(name, v, ms[..k])
    decreases |ms| - k
  {
    if k < |ms| {
      assert ms[..k + 1][..k] == ms[..k];
      UnresolvedPrefix(name, v, ms, k + 1);
    } else {
      assert ms[..k] == ms;
    }
  }

  lemma {:induction false} ResolveAllIsExact(name: string, v: View, ms: seq<Membership>)
    ensures ResolveAll(name, v, ms).Resolved? <==> forall m :: m in ms ==> ResolveOne(name, v, m).Resolved?
    ensures ResolveAll(name, v, ms).Resolved? ==>
              forall c :: c in ResolveAll(name, v, ms).claims <==>
                exists m :: m in ms && ResolveOne(name, v, m) == Resolved([c])
  {
    if ms != [] {
      var n := |ms| - 1;
      var front, last := ms[..n], ms[n];
      ResolveAllIsExact(name, v, front);
      assert ms == front + [last];
      if ResolveAll(name, v, ms).Resolved? {
        var one := ResolveOne(name, v, last);
        assert one.claims == [one.claims[0]];
        forall c ensures c in ResolveAll(name, v, ms).claims <==>
                         exists m :: m in ms && ResolveOne(name, v, m) == Resolved([c]) {
          if c in one.claims {
            assert last in ms && one == Resolved([c]);
          }
          if m :| m in ms && ResolveOne(name, v, m) == Resolved([c]) {
            assert m in front || m == last;
            assert c in [c];
          }
        }
      }
    }
  }

  /** A resolved pass claims exactly what its memberships claim, and it resolves only if all of them do. */
  lemma ResolveIsExact(name: string, typ: GroupType, v: View)
    ensures Resolve(name, typ, v).Resolved? ==>
              forall kind, x :: Claim(kind, x) in Resolve(name, typ, v).claims <==> Claimed(name, v, kind, x)
    ensures Resolve(name, typ, v).Resolved? <==>
              (forall m :: m in v.memberships && m.groupRef == name ==>
                 typ == Internal && ResolveOne(name, v, m).Resolved?)
  {
    hide SortByName, ForGroup;
    var ms := SortByName(ForGroup(name, v.memberships));
    ForGroupElems(name, v.memberships);
    SortByNameSorts(ForGroup(name, v.memberships));
    ResolveAllIsExact(name, v, ms);
    if ms != [] { assert ms[0] in ms; }
    if Resolve(name, typ, v).Resolved? {
      var claims := Resolve(name, typ, v).claims;
      forall kind, x ensures Claim(kind, x) in claims <==> Claimed(name, v, kind, x) {
        if Claim(kind, x) in claims {
          var m :| m in ms && ResolveOne(name, v, m) == Resolved([Claim(kind, x)]);
          assert Claims(name, v, m, kind, x);
        }
        if Claimed(name, v, kind, x) {
          var m :| m in v.memberships && Claims(name, v, m, kind, x);
          assert m in ms;
        }
      }
    }
  }

  /** The members asked for: what is there, less what was managed, plus the claims. */
  lemma DesiredMembers(name: string, spec: GroupSpec, status: GroupStatus, observed: RemoteGroup,
                       claims: seq<Claim>, kind: Kind)
    ensures var d := Desired(name, spec, status, Some(observed), claims);
            Elems(MemberList(d, kind)) ==
            Elems(MemberList(observed, kind)) - Managed(status, kind) + Elems(ClaimIDs(claims, kind))
  {
    var kept := Subtract(MemberList(observed, kind), ManagedList(status, kind));
    SubtractElems(MemberList(observed, kind), ManagedList(status, kind));
    NormalizeCanonical(kept + ClaimIDs(claims, kind));
    assert Elems(kept + ClaimIDs(claims, kind)) == Elems(kept) + Elems(ClaimIDs(claims, kind));
  }

  /** A desired group matches itself once written, and matching means holding the desired members. */
  lemma MatchingMembers(desired: RemoteGroup, current: RemoteGroup, kind: Kind)
    requires GroupMatches(desired, current)
    ensures Elems(MemberList(desired, kind)) == Elems(MemberList(current, kind))
  {
    NormalizeCanonical(MemberList(current, kind));
  }

  // ---------------------------------------------------------------------------
  // A pass in short
  // ---------------------------------------------------------------------------

  /** At most one version is added, on top of the newest, with this ID and these managed lists. */
  ghost predicate Appends(objects: seq<GroupObject>, snapshot: nat, objects': seq<GroupObject>,
                          id: string, entities: seq<string>, groups: seq<string>)
    requires snapshot < |objects|
  {
    || objects' == objects
    || (&& snapshot + 1 == |objects|
        && |objects'| == |objects| + 1 && objects'[..|objects|] == objects
        && objects'[|objects|].spec == objects[snapshot].spec
        && objects'[|objects|].generation == objects[snapshot].generation
        && HasManaged(objects'[|objects|].status, id, entities, groups))
  }

  ghost predicate HasManaged(s: GroupStatus, id: string, entities: seq<string>, groups: seq<string>) {
    s.id == id && s.managedEntities == entities && s.managedGroups == groups
  }

  /** What a bound group goes through, without the order of the calls. */
  ghost predicate ConvergeFacts(name: string, remote: Remote, objects: seq<GroupObject>, v: View, i: PassInput,
                                status: GroupStatus, observed: RemoteGroup, p: PassResult)
    requires i.snapshot < |objects|
  {
    var obj := objects[i.snapshot];
    var desired := Desired(name, obj.spec, status, Some(observed), p.claims);
    && p.base == remote
    && (!p.reached ==> p.remote == remote && !p.recorded && !p.completed)
    && (p.reached ==>
          && p.target == status.id
          && Resolve(name, obj.spec.typ, v) == Resolved(p.claims)
          && p.updates == (if GroupMatches(desired, observed) then 0 else 1)
          && p.remote == (if p.updates == 1 && i.update.TookEffect() then remote[status.id := desired] else remote))
    && (p.completed && i.snapshot + 1 == |objects| ==> p.recorded)
    && (!p.recorded ==> Appends(objects, i.snapshot, p.objects, status.id, status.managedEntities, status.managedGroups))
    && (p.recorded ==>
          && p.reached && i.snapshot + 1 == |objects|
          && (p.updates == 1 ==> i.update.Fine?)
          && Appends(objects, i.snapshot, p.objects, status.id,
                     Normalize(ClaimIDs(p.claims, Entity)), Normalize(ClaimIDs(p.claims, Subgroup)))
          && HasManaged(p.objects[|p.objects| - 1].status, status.id,
                        Normalize(ClaimIDs(p.claims, Entity)), Normalize(ClaimIDs(p.claims, Subgroup))))
  }

  lemma FailedFacts(remote: Remote, objects: seq<GroupObject>, i: PassInput, status: GroupStatus, m: Mark)
    requires i.snapshot < |objects|
    ensures var p := Failed(remote, objects, i, status, m);
            && p == Stop(remote, p.objects)
            && Appends(objects, i.snapshot, p.objects, status.id, status.managedEntities, status.managedGroups)
  {
    hide Conditions.Apply;
  }

  lemma FinishFacts(base: Remote, remote: Remote, objects: seq<GroupObject>, i: PassInput, status: GroupStatus,
                    claims: seq<Claim>, updates: nat)
    requires i.snapshot < |objects| && status == objects[i.snapshot].status.(id := status.id)
    ensures var p := Finish(base, remote, objects, i, status, claims, updates);
            && p == PassResult(base, remote, p.objects, status.id, claims, true, updates, p.recorded, p.completed)
            && (p.completed && i.snapshot + 1 == |objects| ==> p.recorded)
            && (!p.recorded ==> p.objects == objects)
            && (p.recorded ==>
                  && i.snapshot + 1 == |objects|
                  && Appends(objects, i.snapshot, p.objects, status.id,
                             Normalize(ClaimIDs(claims, Entity)), Normalize(ClaimIDs(claims, Subgroup)))
                  && HasManaged(p.objects[|p.objects| - 1].status, status.id,
                                Normalize(ClaimIDs(claims, Entity)), Normalize(ClaimIDs(claims, Subgroup))))
  {
    hide Conditions.Apply, Normalize, ClaimIDs;
  }

  lemma ConvergeHasFacts(name: string, remote: Remote, objects: seq<GroupObject>, v: View, i: PassInput,
                         status: GroupStatus, observed: RemoteGroup)
    requires i.snapshot < |objects| && status == objects[i.snapshot].status.(id := status.id)
    ensures ConvergeFacts(name, remote, objects, v, i, status, observed,
                          Converge(name, remote, objects, v, i, status, observed))
  {
    hide Conditions.Apply, Normalize, ClaimIDs, Failed, Finish, Desired, GroupMatches, Resolve, Appends;
    var g := objects[i.snapshot].generation;
    if observed.name != "" && observed.name != name {
      FailedFacts(remote, objects, i, status, Error(g, "GroupIdentityMismatch", Some(observed.name), i.clock));
    } else if i.listing.Crashed() {
      StopAppends(remote, objects, i, status);
    } else if !i.listing.Fine? {
      FailedFacts(remote, objects, i, status, Error(g, "GroupMembershipReadFailed", Some(i.listing.message), i.clock));
    } else {
      ResolvedHasFacts(name, remote, objects, v, i, status, observed);
    }
  }

  lemma StopAppends(remote: Remote, objects: seq<GroupObject>, i: PassInput, status: GroupStatus)
    requires i.snapshot < |objects|
    ensures Appends(objects, i.snapshot, objects, status.id, status.managedEntities, status.managedGroups)
  {
  }

  lemma ResolvedHasFacts(name: string, remote: Remote, objects: seq<GroupObject>, v: View, i: PassInput,
                         status: GroupStatus, observed: RemoteGroup)
    requires i.snapshot < |objects| && status == objects[i.snapshot].status.(id := status.id)
    requires (observed.name == "" || observed.name == name) && i.listing.Fine?
    ensures ConvergeFacts(name, remote, objects, v, i, status, observed,
                          Converge(name, remote, objects, v, i, status, observed))
  {
    hide Conditions.Apply, Normalize, ClaimIDs, Failed, Finish, Desired, GroupMatches, Resolve, Appends;
    var obj := objects[i.snapshot];
    var g := obj.generation;
    var r := Resolve(name, obj.spec.typ, v);
    if r.Unresolved? {
      if r.dependency {
        FailedFacts(remote, objects, i, status, Stalled(g, "DependencyNotReady", Some(r.message), i.clock, i.clock));
      } else {
        FailedFacts(remote, objects, i, status, Error(g, "GroupMembershipResolutionFailed", Some(r.message), i.clock));
      }
    } else {
      StopAppends(remote, objects, i, status);
      var desired := Desired(name, obj.spec, status, Some(observed), r.claims);
      if GroupMatches(desired, observed) {
        FinishFacts(remote, remote, objects, i, status, r.claims, 0);
      } else {
        var remote' := if i.update.TookEffect() then remote[status.id := desired] else remote;
        if !i.update.Fine? {
          if !i.update.Crashed() {
            FailedFacts(remote', objects, i, status, Error(g, "GroupUpdateFailed", Some(i.update.message), i.clock));
          }
        } else if !i.readBack.Fine? {
          if !i.readBack.Crashed() {
            FailedFacts(remote', objects, i, status, Error(g, "GroupReadFailed", Some(i.readBack.message), i.clock));
          }
        } else {
          FinishFacts(remote, remote', objects, i, status, r.claims, 1);
        }
      }
    }
  }

  /** A group that a pass creates has no members. */
  ghost predicate Memberless(g: RemoteGroup) {
    forall kind :: Elems(MemberList(g, kind)) == {}
  }

  /** OpenBao gained at most one group, under a new ID and without members. */
  ghost predicate Adds(remote: Remote, id: string, remote': Remote) {
    || remote' == remote
    || (id !in remote && id in remote' && remote' == remote[id := remote'[id]] && Memberless(remote'[id]))
  }

  /** `acquire` adds at most one group, a new one without members, and binds an existing group. */
  ghost predicate AcquireFacts(remote: Remote, status: GroupStatus, i: PassInput, a: Acquisition) {
    && Adds(remote, i.newID, a.remote)
    && (a.Bound? ==>
          && a.id != "" && a.id in a.remote && a.remote[a.id] == a.observed
          && (a.id !in remote ==> Memberless(a.observed))
          && (status.id in remote && status.id != "" ==> a.id == status.id && a.remote == remote))
    && (a.NotBound? && status.id in remote && status.id != "" ==> a.id == status.id)
  }

  lemma CreatedMemberless(name: string, spec: GroupSpec, status: GroupStatus)
    ensures Memberless(Desired(name, spec, status, None, []))
  {
    NormalizeCanonical([]);
    assert Subtract([], status.managedEntities) + [] == [];
    assert Subtract([], status.managedGroups) + [] == [];
  }

  lemma AcquireHasFacts(name: string, spec: GroupSpec, status: GroupStatus, remote: Remote, i: PassInput)
    requires FaithfulReplies(name, remote, i)
    ensures AcquireFacts(remote, status, i, Acquire(name, spec, status, remote, i))
  {
    hide Desired, Memberless;
    CreatedMemberless(name, spec, status);
    CreatedMemberless(name, spec, status.(id := ""));
  }

  /** What one pass may do to OpenBao and to the store. */
  ghost predicate PassFacts(name: string, remote: Remote, objects: seq<GroupObject>, v: View, i: PassInput, p: PassResult)
    requires i.snapshot < |objects|
  {
    var obj := objects[i.snapshot];
    var bound := obj.status.id != "" && obj.status.id in remote;
    && Adds(remote, i.newID, p.base)
    && (if p.reached then
          && p.target != "" && p.target in p.base
          && (p.target !in remote ==> Memberless(p.base[p.target]))
          && (bound ==> p.target == obj.status.id && p.base == remote)
          && i.dependency.None?
          && ConvergeFacts(name, p.base, objects, v, i, obj.status.(id := p.target), p.base[p.target], p)
        else
          && p.remote == p.base && !p.recorded && !p.completed
          && exists id :: (bound ==> id == obj.status.id)
                          && Appends(objects, i.snapshot, p.objects, id, obj.status.managedEntities, obj.status.managedGroups))
  }

  lemma PassHasFacts(name: string, remote: Remote, objects: seq<GroupObject>, v: View, i: PassInput)
    requires i.snapshot < |objects| && FaithfulReplies(name, remote, i)
    ensures PassFacts(name, remote, objects, v, i, Pass(name, remote, objects, v, i))
  {
    hide Failed, Converge, Acquire, Desired, GroupMatches, Resolve, Appends, Memberless, FaithfulReplies, Normalize, ClaimIDs;
    var obj := objects[i.snapshot];
    var p := Pass(name, remote, objects, v, i);
    if i.dependency.Some? {
      FailedFacts(remote, objects, i, obj.status, Stalled(obj.generation, "DependencyNotReady", i.dependency, i.clock, i.clock));
      assert Appends(objects, i.snapshot, p.objects, obj.status.id, obj.status.managedEntities, obj.status.managedGroups);
    } else {
      AcquireHasFacts(name, obj.spec, obj.status, remote, i);
      var a := Acquire(name, obj.spec, obj.status, remote, i);
      match a
      case Died(remote') =>
        StopAppends(remote', objects, i, obj.status);
        assert Appends(objects, i.snapshot, p.objects, obj.status.id, obj.status.managedEntities, obj.status.managedGroups);
      case NotBound(id, message, remote') =>
        FailedFacts(remote', objects, i, obj.status.(id := id), Error(obj.generation, "GroupAcquireFailed", Some(message), i.clock));
        assert Appends(objects, i.snapshot, p.objects, id, obj.status.managedEntities, obj.status.managedGroups);
      case Bound(id, observed, remote') =>
        ConvergeHasFacts(name, remote', objects, v, i, obj.status.(id := id), observed);
        if !p.reached {
          assert Appends(objects, i.snapshot, p.objects, id, obj.status.managedEntities, obj.status.managedGroups);
        }
    }
  }

  // ---------------------------------------------------------------------------
  // The controller, updating the cluster step by step
  // ---------------------------------------------------------------------------

  /** OpenBao's groups and the stored versions of the object under reconciliation. */
  class GroupCluster {
    const name: string
    var remote: Remote
    var objects: seq<GroupObject>

    constructor (name: string, remote: Remote, objects: seq<GroupObject>)
      ensures this.name == name && this.remote == remote && this.objects == objects
    {
      this.name, this.remote, this.objects := name, remote, objects;
    }

    /** `acquire`: clears a vanished ID and starts over, which happens at most once. */
    method AcquireGroup(spec: GroupSpec, status: GroupStatus, i: PassInput) returns (a: Acquisition)
      requires FaithfulReplies(name, remote, i)
      modifies this`remote
      ensures a == Acquire(name, spec, status, old(remote), i)
      ensures remote == a.remote
      decreases status.id != ""
    {
      if status.id != "" {
        if i.getByID.Crashed() { return Died(remote); }
        if !i.getByID.Fine? { return NotBound(status.id, i.getByID.message, remote); }
        if status.id in remote { return Bound(status.id, remote[status.id], remote); }
        a := AcquireGroup(spec, status.(id := ""), i);
        return;
      }
      if i.getByName.Crashed() { return Died(remote); }
      if !i.getByName.Fine? { return NotBound("", i.getByName.message, remote); }
      if i.nameHit.Some? {
        if !spec.creation.AllowsAdoption() { return NotBound("", "already exists", remote); }
        if !i.nameHasID { return NotBound("", "reply without an ID", remote); }
        return Bound(i.nameHit.value, remote[i.nameHit.value], remote);
      }
      if !spec.creation.AllowsCreation() { return NotBound("", "does not exist", remote); }
      var request := DesiredGroupRequest(name, spec, status, None, []);
      if i.create.TookEffect() { remote := remote[i.newID := request]; }
      if i.create.Crashed() { return Died(remote); }
      if !i.create.Fine? { return NotBound("", i.create.message, remote); }
      if !i.createHasID { return NotBound("", "empty ID", remote); }
      if i.getCreated.Crashed() { return Died(remote); }
      if !i.getCreated.Fine? { return NotBound(i.newID, i.getCreated.message, remote); }
      return Bound(i.newID, remote[i.newID], remote);
    }

    /** `updateStatusIfChanged`. */
    method UpdateStatusIfChanged(snapshot: nat, before: GroupStatus, after: GroupStatus, f: Fault) returns (ok: bool)
      requires snapshot < |objects|
      modifies this`objects
      ensures (objects, ok) == Persist(old(objects), snapshot, before, after, f)
    {
      if before == after { return true; }
      if snapshot + 1 != |objects| { return false; }
      if f.TookEffect() { objects := objects + [objects[snapshot].(status := after)]; }
      ok := f.Fine?;
    }

    /** `fail` and `dependencyFailure`. */
    method Fail(i: PassInput, status: GroupStatus, m: Mark)
      requires i.snapshot < |objects|
      modifies this`objects
      ensures objects == Failed(remote, old(objects), i, status, m).objects
    {
      var marked := status.(conditions := Conditions.Apply(status.conditions, m));
      var _ := UpdateStatusIfChanged(i.snapshot, status, marked, i.statusWrite);
    }

    /** `Reconcile`. */
    method Reconcile(v: View, i: PassInput) returns (completed: bool)
      requires i.snapshot < |objects| && FaithfulReplies(name, remote, i)
      modifies this
      ensures var p := Pass(name, old(remote), old(objects), v, i);
              remote == p.remote && objects == p.objects && completed == p.completed
    {
      completed := false;
      var obj := objects[i.snapshot];
      var g := obj.generation;
      if i.dependency.Some? {
        Fail(i, obj.status, Stalled(g, "DependencyNotReady", i.dependency, i.clock, i.clock));
        return;
      }
      var a := AcquireGroup(obj.spec, obj.status, i);
      if a.Died? { return; }
      var status := obj.status.(id := a.id);
      if a.NotBound? {
        Fail(i, status, Error(g, "GroupAcquireFailed", Some(a.message), i.clock));
        return;
      }
      completed := ConvergeBound(v, i, status, a.observed);
    }

    /** The part of `Reconcile` after `acquire`. */
    method ConvergeBound(v: View, i: PassInput, status: GroupStatus, observed: RemoteGroup) returns (completed: bool)
      requires i.snapshot < |objects|
      modifies this
      ensures var p := Converge(name, old(remote), old(objects), v, i, status, observed);
              remote == p.remote && objects == p.objects && completed == p.completed
    {
      hide Conditions.Apply, Desired, GroupMatches, Resolve;
      completed := false;
      var obj := objects[i.snapshot];
      var g := obj.generation;
      if observed.name != "" && observed.name != name {
        Fail(i, status, Error(g, "GroupIdentityMismatch", Some(observed.name), i.clock));
        return;
      }
      if i.listing.Crashed() { return; }
      if !i.listing.Fine? {
        Fail(i, status, Error(g, "GroupMembershipReadFailed", Some(i.listing.message), i.clock));
        return;
      }
      var resolution := ResolveMemberships(name, obj.spec.typ, v);
      if resolution.Unresolved? {
        if resolution.dependency {
          Fail(i, status, Stalled(g, "DependencyNotReady", Some(resolution.message), i.clock, i.clock));
        } else {
          Fail(i, status, Error(g, "GroupMembershipResolutionFailed", Some(resolution.message), i.clock));
        }
        return;
      }
      var claims := resolution.claims;
      var desired := DesiredGroupRequest(name, obj.spec, status, Some(observed), claims);
      if !GroupMatches(desired, observed) {
        if i.update.TookEffect() { remote := remote[status.id := desired]; }
        if i.update.Crashed() { return; }
        if !i.update.Fine? {
          Fail(i, status, Error(g, "GroupUpdateFailed", Some(i.update.message), i.clock));
          return;
        }
        if i.readBack.Crashed() { return; }
        if !i.readBack.Fine? {
          Fail(i, status, Error(g, "GroupReadFailed", Some(i.readBack.message), i.clock));
          return;
        }
      }
      var entities, groups := ManagedMemberIDs(claims);
      var after := status.(managedEntities := Normalize(entities), managedGroups := Normalize(groups),
                           conditions := Conditions.Apply(status.conditions,
                                                          Ready(g, "OpenBao group is reconciled", i.clock, i.clock)));
      completed := UpdateStatusIfChanged(i.snapshot, obj.status, after, i.statusWrite);
    }
  }
}
