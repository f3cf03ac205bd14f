/** `OpenBaoKubernetesAuthRole`: lists and lifetimes are always sent, the rest only when set. */
module KubernetesAuthRole {
  import opened Kube
  import opened StringLists
  import opened RoleValues

  /** Durations are in nanoseconds. */
  datatype Spec = Spec(
    names: seq<string>, namespaces: seq<string>, tokenPolicies: seq<string>, tokenTTL: Option<int>,
    tokenMaxTTL: Option<int>, tokenPeriod: Option<int>, audience: string, tokenType: string,
    tokenNumUses: Option<int>, tokenNoDefaultPolicy: Option<bool>, tokenExplicitMaxTTL: Option<int>,
    tokenBoundCIDRs: seq<string>)

  /** `KubernetesAuthRoleRequest`, durations in seconds; the first six fields are never omitted. */
  datatype Request = Request(
    names: seq<string>, namespaces: seq<string>, tokenPolicies: seq<string>, tokenTTL: int, tokenMaxTTL: int,
    tokenPeriod: int, audience: string, tokenType: string, tokenNumUses: Option<int>,
    tokenNoDefaultPolicy: Option<bool>, tokenExplicitMaxTTL: Option<int>, tokenBoundCIDRs: seq<string>)

  /** `KubernetesAuthRole`; `policies` is the list older plugins report. */
  datatype Role = Role(
    names: seq<string>, namespaces: seq<string>, tokenPolicies: seq<string>, policies: seq<string>, tokenTTL: int,
    tokenMaxTTL: int, tokenPeriod: int, audience: string, tokenType: string, tokenNumUses: int,
    tokenNoDefaultPolicy: bool, tokenExplicitMaxTTL: int, tokenBoundCIDRs: seq<string>)

  ghost predicate ValidSpec(s: Spec) {
    && NoBlank(s.names) && NoBlank(s.namespaces) && NoBlank(s.tokenPolicies)
    && WholeSeconds(s.tokenTTL) && WholeSeconds(s.tokenMaxTTL) && WholeSeconds(s.tokenPeriod)
    && WholeSeconds(s.tokenExplicitMaxTTL)
  }

  /** An absent duration counts as zero. */
  function SecondsOrZero(d: Option<int>): int {
    if d.None? then 0 else d.value / SECOND
  }

  function Desired(s: Spec): Request {
    Request(NormalizeTrimmed(s.names), NormalizeTrimmed(s.namespaces), NormalizeTrimmed(s.tokenPolicies),
            SecondsOrZero(s.tokenTTL), SecondsOrZero(s.tokenMaxTTL), SecondsOrZero(s.tokenPeriod),
            TrimSpace(s.audience), TrimSpace(s.tokenType), s.tokenNumUses, s.tokenNoDefaultPolicy,
            SecondsOf(s.tokenExplicitMaxTTL), NormalizeTrimmed(s.tokenBoundCIDRs))
  }

  lemma SecondsExact(d: Option<int>, seconds: int)
    requires seconds * SECOND == if d.None? then 0 else d.value
    ensures seconds == SecondsOrZero(d)
  {
  }

  /** The seconds are those of the duration, zero for an absent one. */
  predicate SameSeconds(specified: Option<int>, seconds: int) {
    seconds * 1_000_000_000 == if specified.None? then 0 else specified.value
  }

  /** Where every field of the request comes from. */
  ghost predicate FromSpec(s: Spec, q: Request) {
    && SentList(s.names, q.names) && SentList(s.namespaces, q.namespaces) && SentList(s.tokenPolicies, q.tokenPolicies)
    && SameSeconds(s.tokenTTL, q.tokenTTL) && SameSeconds(s.tokenMaxTTL, q.tokenMaxTTL) && SameSeconds(s.tokenPeriod, q.tokenPeriod)
    && q.audience == TrimSpace(s.audience) && q.tokenType == TrimSpace(s.tokenType)
    && q.tokenNumUses == s.tokenNumUses && q.tokenNoDefaultPolicy == s.tokenNoDefaultPolicy
    && SentSeconds(s.tokenExplicitMaxTTL, q.tokenExplicitMaxTTL) && SentList(s.tokenBoundCIDRs, q.tokenBoundCIDRs)
  }

  lemma SameSecondsHold(specified: Option<int>)
    requires WholeSeconds(specified)
    ensures forall seconds :: SecondsOrZero(specified) == seconds <==> SameSeconds(specified, seconds)
  {
    SentSecondsHold(specified);
  }

  lemma DesiredFromSpec(s: Spec)
    requires ValidSpec(s)
    ensures FromSpec(s, Desired(s))
  {
    hide NormalizeTrimmed, TrimSpace, WholeSeconds, SecondsOf, SecondsOrZero, SentList, SentSeconds, SameSeconds;
    SentListHolds(s.names);
    SentListHolds(s.namespaces);
    SentListHolds(s.tokenPolicies);
    SentListHolds(s.tokenBoundCIDRs);
    SameSecondsHold(s.tokenTTL);
    SameSecondsHold(s.tokenMaxTTL);
    SameSecondsHold(s.tokenPeriod);
    SentSecondsHold(s.tokenExplicitMaxTTL);
  }

  /** `desiredKubernetesAuthRoleRequest`; the bound address ranges are not checked for blank values. */
  method DesiredRequest(s: Spec) returns (ok: bool, request: Request)
    ensures ok <==> ValidSpec(s)
    ensures ok ==> request == Desired(s)
    ensures ok ==> FromSpec(s, request)
  {
    hide NormalizeTrimmed, TrimSpace, WholeSeconds, SecondsOrZero, FromSpec;
    if ValidSpec(s) { DesiredFromSpec(s); }
    request := Request([], [], [], 0, 0, 0, "", "", None, None, None, []);
    var names, namespaces, policies, ttl, maxTTL, period, explicit;
    ok, names := CheckedRoleValues(s.names);
    if !ok { return; }
    ok, namespaces := CheckedRoleValues(s.namespaces);
    if !ok { return; }
    ok, policies := CheckedRoleValues(s.tokenPolicies);
    if !ok { return; }
    ok, ttl := DurationSeconds(s.tokenTTL);
    if !ok { return; }
    ok, maxTTL := DurationSeconds(s.tokenMaxTTL);
    if !ok { return; }
    ok, period := DurationSeconds(s.tokenPeriod);
    if !ok { return; }
    ok, explicit := DurationSeconds(s.tokenExplicitMaxTTL);
    if !ok { return; }
    var explicitValue: Option<int> := None;
    if s.tokenExplicitMaxTTL.Some? { explicitValue := Some(explicit); }
    var cidrs := NormalizeRoleValues(s.tokenBoundCIDRs);
    SecondsExact(s.tokenTTL, ttl);
    SecondsExact(s.tokenMaxTTL, maxTTL);
    SecondsExact(s.tokenPeriod, period);
    request := Request(names, namespaces, policies, ttl, maxTTL, period, TrimSpace(s.audience), TrimSpace(s.tokenType),
                       s.tokenNumUses, s.tokenNoDefaultPolicy, explicitValue, cidrs);
  }

  function Or<T>(sent: Option<T>, stored: T): T {
    if sent.None? then stored else sent.value
  }

  /** The server: fields present in the request overwrite; `policies` is never sent. */
  function Write(role: Role, q: Request): Role {
    Role(q.names, q.namespaces, q.tokenPolicies, role.policies, q.tokenTTL, q.tokenMaxTTL, q.tokenPeriod,
         KeptSeq(q.audience, role.audience), KeptSeq(q.tokenType, role.tokenType),
         Or(q.tokenNumUses, role.tokenNumUses), Or(q.tokenNoDefaultPolicy, role.tokenNoDefaultPolicy),
         Or(q.tokenExplicitMaxTTL, role.tokenExplicitMaxTTL), KeptSeq(q.tokenBoundCIDRs, role.tokenBoundCIDRs))
  }

  function EffectivePolicies(role: Role): seq<string> {
    if |role.tokenPolicies| > 0 then role.tokenPolicies else role.policies
  }

  /** `normalizedKubernetesAuthRoleRequest`. */
  function Observed(role: Role): Request {
    Request(NormalizeTrimmed(role.names), NormalizeTrimmed(role.namespaces), NormalizeTrimmed(EffectivePolicies(role)),
            role.tokenTTL, role.tokenMaxTTL, role.tokenPeriod, role.audience, role.tokenType,
            Some(role.tokenNumUses), Some(role.tokenNoDefaultPolicy), Some(role.tokenExplicitMaxTTL),
            NormalizeTrimmed(role.tokenBoundCIDRs))
  }

  /** `kubernetesAuthRoleMatches`. */
  predicate Matches(q: Request, role: Role) {
    var n := Observed(role);
    && q.names == n.names && q.namespaces == n.namespaces && q.tokenPolicies == n.tokenPolicies
    && q.tokenTTL == n.tokenTTL && q.tokenMaxTTL == n.tokenMaxTTL && q.tokenPeriod == n.tokenPeriod
    && SeqMatches(q.audience, n.audience) && SeqMatches(q.tokenType, n.tokenType)
    && OptionalMatches(q.tokenNumUses, n.tokenNumUses) && OptionalMatches(q.tokenNoDefaultPolicy, n.tokenNoDefaultPolicy)
    && OptionalMatches(q.tokenExplicitMaxTTL, n.tokenExplicitMaxTTL) && SeqMatches(q.tokenBoundCIDRs, n.tokenBoundCIDRs)
  }

  /** A role matches exactly when its lists and lifetimes are those of the spec and it has every other field the spec sets. */
  lemma MatchesExactly(s: Spec, role: Role)
    requires ValidSpec(s)
    ensures Matches(Desired(s), role) <==>
              && SameTrimmed(s.names, role.names) && SameTrimmed(s.namespaces, role.namespaces)
              && SameTrimmed(s.tokenPolicies, if role.tokenPolicies != [] then role.tokenPolicies else role.policies)
              && SameSeconds(s.tokenTTL, role.tokenTTL) && SameSeconds(s.tokenMaxTTL, role.tokenMaxTTL)
              && SameSeconds(s.tokenPeriod, role.tokenPeriod)
              && HasText(s.audience, role.audience) && HasText(s.tokenType, role.tokenType)
              && HasValue(s.tokenNumUses, Some(role.tokenNumUses)) && HasValue(s.tokenNoDefaultPolicy, Some(role.tokenNoDefaultPolicy))
              && HasSeconds(s.tokenExplicitMaxTTL, Some(role.tokenExplicitMaxTTL)) && HasList(s.tokenBoundCIDRs, role.tokenBoundCIDRs)
  {
    hide NormalizeTrimmed, TrimSpace, WholeSeconds, SecondsOf, SecondsOrZero, SameTrimmed, HasSeconds, HasList, SameSeconds;
    NormalizeTrimmedDecides(s.names, role.names);
    NormalizeTrimmedDecides(s.namespaces, role.namespaces);
    NormalizeTrimmedDecides(s.tokenPolicies, EffectivePolicies(role));
    ListMatches(s.tokenBoundCIDRs, role.tokenBoundCIDRs);
    SameSecondsHold(s.tokenTTL);
    SameSecondsHold(s.tokenMaxTTL);
    SameSecondsHold(s.tokenPeriod);
    SentSecondsHold(s.tokenExplicitMaxTTL);
  }

  /** The spec names a policy, or the server reports no list under the older name. */
  predicate LegacyPoliciesHarmless(s: Spec, role: Role) {
    s.tokenPolicies == [] ==> role.policies == []
  }

  lemma DesiredIsNormal(s: Spec)
    ensures var q := Desired(s);
            && NormalizeTrimmed(q.names) == q.names && NormalizeTrimmed(q.namespaces) == q.namespaces
            && NormalizeTrimmed(q.tokenPolicies) == q.tokenPolicies
            && NormalizeTrimmed(q.tokenBoundCIDRs) == q.tokenBoundCIDRs
            && (q.tokenPolicies == [] <==> s.tokenPolicies == [])
  {
    hide NormalizeTrimmed, TrimSpace;
    NormalizeTrimmedIdempotent(s.names);
    NormalizeTrimmedIdempotent(s.namespaces);
    NormalizeTrimmedIdempotent(s.tokenPolicies);
    NormalizeTrimmedIdempotent(s.tokenBoundCIDRs);
    NormalizeTrimmedCanonical(s.tokenPolicies);
  }

  /** For every spec and prior role, the role read back matches if and only if the older list is harmless. */
  lemma WriteThenMatchIff(s: Spec, prior: Role)
    ensures Matches(Desired(s), Write(prior, Desired(s))) <==> LegacyPoliciesHarmless(s, prior)
  {
    hide NormalizeTrimmed, TrimSpace, Desired;
    DesiredIsNormal(s);
    NormalizeTrimmedCanonical(prior.policies);
  }

  /** No drift is reported exactly when the older list is harmless and a write would change nothing visible. */
  lemma MatchesIffWriteChangesNothing(s: Spec, role: Role)
    ensures Matches(Desired(s), role) <==>
              LegacyPoliciesHarmless(s, role) && Observed(Write(role, Desired(s))) == Observed(role)
  {
    hide NormalizeTrimmed, TrimSpace, Desired;
    DesiredIsNormal(s);
    NormalizeTrimmedCanonical(EffectivePolicies(role));
    NormalizeTrimmedCanonical([]);
  }

  function PlanOf(s: Spec, defaults: Role): Plan<Role> {
    var q := Desired(s);
    Plan(defaults, (r: Role) => Write(r, q), (r: Role) => Matches(q, r))
  }

  /** Writes over n passes: none, one, or one in every pass when the older list stands in the way. */
  lemma WritesOverTime(s: Spec, defaults: Role, prior: Role, n: nat)
    ensures Passes(PlanOf(s, defaults), Some(prior), n).1 ==
            if n == 0 || Matches(Desired(s), prior) then 0
            else if LegacyPoliciesHarmless(s, prior) then 1 else n
  {
    hide Matches, Desired, LegacyPoliciesHarmless;
    WriteThenMatchIff(s, prior);
    WritesOverPasses(PlanOf(s, defaults), prior, n);
  }
}
