/** `OpenBaoAppRole`: the request built from the spec, the server that stores it, the matcher. */
module AppRoleRole {
  import opened Kube
  import opened StringLists
  import opened RoleValues

  /** Durations are in nanoseconds. */
  datatype Spec = Spec(
    bindSecretID: Option<bool>, localSecretIDs: Option<bool>, secretIDBoundCIDRs: seq<string>,
    secretIDNumUses: Option<int>, secretIDTTL: Option<int>, tokenBoundCIDRs: seq<string>,
    tokenExplicitMaxTTL: Option<int>, tokenMaxTTL: Option<int>, tokenNoDefaultPolicy: Option<bool>,
    tokenNumUses: Option<int>, tokenPeriod: Option<int>, tokenPolicies: seq<string>,
    tokenTTL: Option<int>, tokenType: string)

  /** `AppRoleRequest`; durations are in seconds. Every field is omitted when empty. */
  datatype Request = Request(
    bindSecretID: Option<bool>, localSecretIDs: Option<bool>, secretIDBoundCIDRs: seq<string>,
    secretIDNumUses: Option<int>, secretIDTTL: Option<int>, tokenBoundCIDRs: seq<string>,
    tokenExplicitMaxTTL: Option<int>, tokenMaxTTL: Option<int>, tokenNoDefaultPolicy: Option<bool>,
    tokenNumUses: Option<int>, tokenPeriod: Option<int>, tokenPolicies: seq<string>,
    tokenTTL: Option<int>, tokenType: string)

  /** `AppRole` as stored and read: the managed fields and the older `policies` list. */
  datatype Role = Role(fields: Request, policies: seq<string>)

  /** The specs the builder accepts. */
  ghost predicate ValidSpec(s: Spec) {
    && NoBlank(s.secretIDBoundCIDRs) && NoBlank(s.tokenBoundCIDRs) && NoBlank(s.tokenPolicies)
    && WholeSeconds(s.secretIDTTL) && WholeSeconds(s.tokenExplicitMaxTTL) && WholeSeconds(s.tokenMaxTTL)
    && WholeSeconds(s.tokenPeriod) && WholeSeconds(s.tokenTTL)
  }

  function Desired(s: Spec): Request {
    Request(s.bindSecretID, s.localSecretIDs, NormalizeTrimmed(s.secretIDBoundCIDRs), s.secretIDNumUses,
            SecondsOf(s.secretIDTTL), NormalizeTrimmed(s.tokenBoundCIDRs), SecondsOf(s.tokenExplicitMaxTTL),
            SecondsOf(s.tokenMaxTTL), s.tokenNoDefaultPolicy, s.tokenNumUses, SecondsOf(s.tokenPeriod),
            NormalizeTrimmed(s.tokenPolicies), SecondsOf(s.tokenTTL), TrimSpace(s.tokenType))
  }

  /** Where every field of the request comes from. */
  ghost predicate FromSpec(s: Spec, q: Request) {
    && q.bindSecretID == s.bindSecretID && q.localSecretIDs == s.localSecretIDs
    && SentList(s.secretIDBoundCIDRs, q.secretIDBoundCIDRs) && q.secretIDNumUses == s.secretIDNumUses
    && SentSeconds(s.secretIDTTL, q.secretIDTTL) && SentList(s.tokenBoundCIDRs, q.tokenBoundCIDRs)
    && SentSeconds(s.tokenExplicitMaxTTL, q.tokenExplicitMaxTTL) && SentSeconds(s.tokenMaxTTL, q.tokenMaxTTL)
    && q.tokenNoDefaultPolicy == s.tokenNoDefaultPolicy && q.tokenNumUses == s.tokenNumUses
    && SentSeconds(s.tokenPeriod, q.tokenPeriod) && SentList(s.tokenPolicies, q.tokenPolicies)
    && SentSeconds(s.tokenTTL, q.tokenTTL) && q.tokenType == TrimSpace(s.tokenType)
  }

  lemma DesiredFromSpec(s: Spec)
    requires ValidSpec(s)
    ensures FromSpec(s, Desired(s))
  {
    hide NormalizeTrimmed, TrimSpace, WholeSeconds, SecondsOf, SentList, SentSeconds;
    SentListHolds(s.secretIDBoundCIDRs);
    SentListHolds(s.tokenBoundCIDRs);
    SentListHolds(s.tokenPolicies);
    SentSecondsHold(s.secretIDTTL);
    SentSecondsHold(s.tokenExplicitMaxTTL);
    SentSecondsHold(s.tokenMaxTTL);
    SentSecondsHold(s.tokenPeriod);
    SentSecondsHold(s.tokenTTL);
  }

  /** `desiredAppRoleRequest`: field by field, stopping at the first refused one. */
  method DesiredRequest(s: Spec) returns (ok: bool, request: Request)
    ensures ok <==> ValidSpec(s)
    ensures ok ==> request == Desired(s)
    ensures ok ==> FromSpec(s, request)
  {
    hide NormalizeTrimmed, TrimSpace, WholeSeconds, SecondsOf, FromSpec;
    if ValidSpec(s) { DesiredFromSpec(s); }
    request := Request(None, None, [], None, None, [], None, None, None, None, None, [], None, "");
    request := request.(bindSecretID := s.bindSecretID, localSecretIDs := s.localSecretIDs);
    var values, seconds;
    ok, values := CheckedRoleValues(s.secretIDBoundCIDRs);
    if !ok { return; }
    request := request.(secretIDBoundCIDRs := values);
    ok, values := CheckedRoleValues(s.tokenBoundCIDRs);
    if !ok { return; }
    request := request.(tokenBoundCIDRs := values);
    request := request.(secretIDNumUses := s.secretIDNumUses, tokenNumUses := s.tokenNumUses);
    request := request.(tokenNoDefaultPolicy := s.tokenNoDefaultPolicy, tokenType := TrimSpace(s.tokenType));
    ok, values := CheckedRoleValues(s.tokenPolicies);
    if !ok { return; }
    request := request.(tokenPolicies := values);
    ok, seconds := OptionalDurationSeconds(s.secretIDTTL);
    if !ok { return; }
    request := request.(secretIDTTL := seconds);
    ok, seconds := OptionalDurationSeconds(s.tokenExplicitMaxTTL);
    if !ok { return; }
    request := request.(tokenExplicitMaxTTL := seconds);
    ok, seconds := OptionalDurationSeconds(s.tokenMaxTTL);
    if !ok { return; }
    request := request.(tokenMaxTTL := seconds);
    ok, seconds := OptionalDurationSeconds(s.tokenPeriod);
    if !ok { return; }
    request := request.(tokenPeriod := seconds);
    ok, seconds := OptionalDurationSeconds(s.tokenTTL);
    request := request.(tokenTTL := seconds);
  }

  /** The server: a field present in the request overwrites, an omitted one stays. */
  function Write(role: Role, q: Request): Role {
    var f := role.fields;
    role.(fields := Request(
      Kept(q.bindSecretID, f.bindSecretID), Kept(q.localSecretIDs, f.localSecretIDs),
      KeptSeq(q.secretIDBoundCIDRs, f.secretIDBoundCIDRs), Kept(q.secretIDNumUses, f.secretIDNumUses),
      Kept(q.secretIDTTL, f.secretIDTTL), KeptSeq(q.tokenBoundCIDRs, f.tokenBoundCIDRs),
      Kept(q.tokenExplicitMaxTTL, f.tokenExplicitMaxTTL), Kept(q.tokenMaxTTL, f.tokenMaxTTL),
      Kept(q.tokenNoDefaultPolicy, f.tokenNoDefaultPolicy), Kept(q.tokenNumUses, f.tokenNumUses),
      Kept(q.tokenPeriod, f.tokenPeriod), KeptSeq(q.tokenPolicies, f.tokenPolicies),
      Kept(q.tokenTTL, f.tokenTTL), KeptSeq(q.tokenType, f.tokenType)))
  }

  function EffectivePolicies(role: Role): seq<string> {
    if |role.fields.tokenPolicies| > 0 then role.fields.tokenPolicies else role.policies
  }

  /** `normalizedAppRole`: what the matcher and the recorded configuration hash look at. */
  function Observed(role: Role): Request {
    role.fields.(
      secretIDBoundCIDRs := NormalizeTrimmed(role.fields.secretIDBoundCIDRs),
      tokenBoundCIDRs := NormalizeTrimmed(role.fields.tokenBoundCIDRs),
      tokenPolicies := NormalizeTrimmed(EffectivePolicies(role)))
  }

  /** `appRoleMatches`. */
  predicate Matches(q: Request, role: Role) {
    var n := Observed(role);
    && OptionalMatches(q.bindSecretID, n.bindSecretID) && OptionalMatches(q.localSecretIDs, n.localSecretIDs)
    && SeqMatches(q.secretIDBoundCIDRs, n.secretIDBoundCIDRs) && SeqMatches(q.tokenBoundCIDRs, n.tokenBoundCIDRs)
    && OptionalMatches(q.secretIDNumUses, n.secretIDNumUses) && OptionalMatches(q.secretIDTTL, n.secretIDTTL)
    && OptionalMatches(q.tokenExplicitMaxTTL, n.tokenExplicitMaxTTL) && OptionalMatches(q.tokenMaxTTL, n.tokenMaxTTL)
    && OptionalMatches(q.tokenNoDefaultPolicy, n.tokenNoDefaultPolicy) && OptionalMatches(q.tokenNumUses, n.tokenNumUses)
    && OptionalMatches(q.tokenPeriod, n.tokenPeriod) && SeqMatches(q.tokenPolicies, n.tokenPolicies)
    && OptionalMatches(q.tokenTTL, n.tokenTTL) && SeqMatches(q.tokenType, n.tokenType)
  }

  /** The policies a role reports: the newer list, or the older one where that is empty. */
  ghost predicate HasPolicies(s: Spec, role: Role) {
    HasList(s.tokenPolicies, if role.fields.tokenPolicies != [] then role.fields.tokenPolicies else role.policies)
  }

  /** A role matches exactly when it has, field by field, everything that the spec sets. */
  lemma MatchesExactly(s: Spec, role: Role)
    requires ValidSpec(s)
    ensures var f := role.fields;
            Matches(Desired(s), role) <==>
              && HasValue(s.bindSecretID, f.bindSecretID) && HasValue(s.localSecretIDs, f.localSecretIDs)
              && HasList(s.secretIDBoundCIDRs, f.secretIDBoundCIDRs) && HasValue(s.secretIDNumUses, f.secretIDNumUses)
              && HasSeconds(s.secretIDTTL, f.secretIDTTL) && HasList(s.tokenBoundCIDRs, f.tokenBoundCIDRs)
              && HasSeconds(s.tokenExplicitMaxTTL, f.tokenExplicitMaxTTL) && HasSeconds(s.tokenMaxTTL, f.tokenMaxTTL)
              && HasValue(s.tokenNoDefaultPolicy, f.tokenNoDefaultPolicy) && HasValue(s.tokenNumUses, f.tokenNumUses)
              && HasSeconds(s.tokenPeriod, f.tokenPeriod) && HasPolicies(s, role)
              && HasSeconds(s.tokenTTL, f.tokenTTL) && HasText(s.tokenType, f.tokenType)
  {
    hide NormalizeTrimmed, TrimSpace, WholeSeconds, SecondsOf, HasList, HasSeconds;
    var f := role.fields;
    ListMatches(s.secretIDBoundCIDRs, f.secretIDBoundCIDRs);
    ListMatches(s.tokenBoundCIDRs, f.tokenBoundCIDRs);
    ListMatches(s.tokenPolicies, EffectivePolicies(role));
    SentSecondsHold(s.secretIDTTL);
    SentSecondsHold(s.tokenExplicitMaxTTL);
    SentSecondsHold(s.tokenMaxTTL);
    SentSecondsHold(s.tokenPeriod);
    SentSecondsHold(s.tokenTTL);
  }

  /** The lists of a built request are their own normal form. */
  lemma DesiredIsNormal(s: Spec)
    ensures var q := Desired(s);
            && NormalizeTrimmed(q.secretIDBoundCIDRs) == q.secretIDBoundCIDRs
            && NormalizeTrimmed(q.tokenBoundCIDRs) == q.tokenBoundCIDRs
            && NormalizeTrimmed(q.tokenPolicies) == q.tokenPolicies
  {
    hide NormalizeTrimmed;
    NormalizeTrimmedIdempotent(s.secretIDBoundCIDRs);
    NormalizeTrimmedIdempotent(s.tokenBoundCIDRs);
    NormalizeTrimmedIdempotent(s.tokenPolicies);
  }

  /** For every spec and every role on the server, the role read back after a write matches. */
  lemma WriteThenMatch(s: Spec, prior: Role)
    ensures Matches(Desired(s), Write(prior, Desired(s)))
  {
    hide NormalizeTrimmed, TrimSpace, Desired;
    DesiredIsNormal(s);
  }

  /** The matcher reports drift exactly when writing would change what an observer sees of the role. */
  lemma MatchesIffWriteChangesNothing(s: Spec, role: Role)
    ensures Matches(Desired(s), role) <==> Observed(Write(role, Desired(s))) == Observed(role)
  {
    hide NormalizeTrimmed, TrimSpace, Desired;
    DesiredIsNormal(s);
  }

  function PlanOf(s: Spec, defaults: Role): Plan<Role> {
    var q := Desired(s);
    Plan(defaults, (r: Role) => Write(r, q), (r: Role) => Matches(q, r))
  }

  /** A completed pass is a fixed point: over any number of passes there is at most one write. */
  lemma DriftSettles(s: Spec, defaults: Role, remote: Option<Role>, n: nat)
    requires n > 0
    ensures var p := PlanOf(s, defaults);
            && Passes(p, remote, n).1 <= 1
            && Passes(p, remote, n).0 == Some(Pass(p, remote).0)
            && Matches(Desired(s), Pass(p, remote).0)
  {
    hide Matches, Desired;
    var p := PlanOf(s, defaults);
    WriteThenMatch(s, defaults);
    if remote.Some? {
      WriteThenMatch(s, remote.value);
      WritesOverPasses(p, remote.value, n);
    } else {
      WritesFromAbsent(p, n);
    }
  }
}
