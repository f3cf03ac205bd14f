/**
 `OpenBaoEntityAliasReconciler` where it differs from the entity lifecycle: an alias has no name
 lookup, so `acquire` scans all aliases, and an update sends the entity only.
 */
module EntityAlias {
  import opened Kube
  import opened RoleValues

  datatype Alias = Alias(id: string, name: string, accessor: string, canonicalID: string, entityID: string)

  /** A read of one alias by ID; `Nothing` is a reply without an error and without an alias. */
  datatype Reply = Missing | Broken(message: string) | Nothing | Read(alias: Alias)

  datatype Listing = NoneListed | ListFailed(message: string) | Listed(ids: seq<string>)

  datatype Search = NoMatch | Match(alias: Alias) | Ambiguous | SearchFailed(message: string)

  predicate IsCandidate(ids: seq<string>, get: string -> Reply, name: string, accessor: string, p: nat)
    requires p < |ids|
  {
    ids[p] != "" && get(ids[p]).Read? && get(ids[p]).alias.name == name && get(ids[p]).alias.accessor == accessor
  }

  predicate AllReadable(ids: seq<string>, get: string -> Reply) {
    forall p :: 0 <= p < |ids| && ids[p] != "" ==> !get(ids[p]).Broken?
  }

  ghost predicate NoCandidate(ids: seq<string>, get: string -> Reply, name: string, accessor: string) {
    forall p: nat :: p < |ids| ==> !IsCandidate(ids, get, name, accessor, p)
  }

  ghost predicate OnlyCandidate(ids: seq<string>, get: string -> Reply, name: string, accessor: string, p: nat) {
    p < |ids| && forall q: nat :: q < |ids| ==> (IsCandidate(ids, get, name, accessor, q) <==> q == p)
  }

  ghost predicate TwoCandidates(ids: seq<string>, get: string -> Reply, name: string, accessor: string) {
    exists p: nat, q: nat :: p < q < |ids| && IsCandidate(ids, get, name, accessor, p) && IsCandidate(ids, get, name, accessor, q)
  }

  /**
   `findExistingAlias`: nothing is found exactly when nothing matches, one alias exactly when it is
   the only match, and an ambiguous or failed search never passes for either.
   */
  method FindExistingAlias(listing: Listing, get: string -> Reply, name: string, accessor: string) returns (r: Search)
    ensures r.NoMatch? <==> listing.NoneListed? ||
                            (listing.Listed? && AllReadable(listing.ids, get) && NoCandidate(listing.ids, get, name, accessor))
    ensures r.Match? <==> listing.Listed? && AllReadable(listing.ids, get) &&
                          exists p: nat :: OnlyCandidate(listing.ids, get, name, accessor, p)
    ensures forall p: nat :: r.Match? && listing.Listed? && OnlyCandidate(listing.ids, get, name, accessor, p) ==>
              get(listing.ids[p]) == Read(r.alias)
    ensures r.Ambiguous? ==> listing.Listed? && TwoCandidates(listing.ids, get, name, accessor)
    ensures r.SearchFailed? ==> listing.ListFailed? || (listing.Listed? && !AllReadable(listing.ids, get))
  {
    if listing.NoneListed? { return NoMatch; }
    if listing.ListFailed? { return SearchFailed(listing.message); }
    var ids := listing.ids;
    var found: Option<Alias> := None;
    ghost var at: nat := 0;
    for p := 0 to |ids|
      invariant forall q :: 0 <= q < p && ids[q] != "" ==> !get(ids[q]).Broken?
      invariant found.None? ==> forall q: nat :: q < p ==> !IsCandidate(ids, get, name, accessor, q)
      invariant found.Some? ==> at < p && get(ids[at]) == Read(found.value)
      invariant found.Some? ==> forall q: nat :: q < p ==> (IsCandidate(ids, get, name, accessor, q) <==> q == at)
    {
      if ids[p] == "" { continue; }
      var candidate := get(ids[p]);
      if candidate.Missing? { continue; }
      if candidate.Broken? { return SearchFailed(candidate.message); }
      if candidate.Nothing? || candidate.alias.name != name || candidate.alias.accessor != accessor { continue; }
      if found.Some? {
        assert IsCandidate(ids, get, name, accessor, at) && IsCandidate(ids, get, name, accessor, p);
        forall x: nat ensures !OnlyCandidate(ids, get, name, accessor, x) {
          assert at != p;
        }
        return Ambiguous;
      }
      found, at := Some(candidate.alias), p;
    }
    if found.None? {
      forall x: nat | x < |ids| ensures !OnlyCandidate(ids, get, name, accessor, x) {
        assert !IsCandidate(ids, get, name, accessor, x);
      }
      return NoMatch;
    }
    assert OnlyCandidate(ids, get, name, accessor, at) && IsCandidate(ids, get, name, accessor, at);
    r := Match(found.value);
  }

  /** `desiredEntityAliasRequest`. */
  datatype Request = Request(name: string, accessor: string, canonicalID: string)

  /** `entityAliasMatches`. */
  predicate Matches(q: Request, a: Alias) {
    var owner := if a.canonicalID == "" then a.entityID else a.canonicalID;
    a.name == q.name && a.accessor == q.accessor && owner == q.canonicalID
  }

  /** An alias matches exactly if it has the name, the accessor, and the entity under its newer or its older field. */
  lemma MatchesExactly(q: Request, a: Alias)
    ensures Matches(q, a) <==>
              && a.name == q.name && a.accessor == q.accessor
              && ((a.canonicalID != "" && a.canonicalID == q.canonicalID) || (a.canonicalID == "" && a.entityID == q.canonicalID))
  {
  }

  /** The identity check before and after the update: a name or accessor that is reported must agree. */
  predicate IdentityAgrees(q: Request, a: Alias) {
    (a.name != "" ==> a.name == q.name) && (a.accessor != "" ==> a.accessor == q.accessor)
  }

  /** The update moves the alias to the entity and sends nothing else. */
  function Update(a: Alias, q: Request): Alias {
    if q.canonicalID == "" then a else a.(canonicalID := q.canonicalID)
  }

  function PlanOf(q: Request, defaults: Alias): Plan<Alias> {
    Plan(defaults, (a: Alias) => Update(a, q), (a: Alias) => Matches(q, a))
  }

  /**
   Writes over n passes on an alias that passes the identity check: at most one when OpenBao
   reports both its name and its accessor, and one in every pass when it reports an empty one.
   */
  lemma WritesOverTime(q: Request, a: Alias, defaults: Alias, n: nat)
    requires q.canonicalID != "" && q.name != "" && q.accessor != "" && IdentityAgrees(q, a)
    ensures Passes(PlanOf(q, defaults), Some(a), n).1 ==
            if n == 0 || Matches(q, a) then 0 else if a.name != "" && a.accessor != "" then 1 else n
    ensures var after := Passes(PlanOf(q, defaults), Some(a), n).0;
            n > 0 ==> after.Some? && (Matches(q, after.value) <==> a.name != "" && a.accessor != "")
    ensures IdentityAgrees(q, Update(a, q))
    ensures var after := Passes(PlanOf(q, defaults), Some(a), n).0;
            n > 0 ==> after.Some? && after.value.name == a.name && after.value.accessor == a.accessor
                      && (after.value.canonicalID == q.canonicalID || (after.value.canonicalID == "" && after.value.entityID == q.canonicalID))
  {
    WritesOverPasses(PlanOf(q, defaults), a, n);
  }
}
