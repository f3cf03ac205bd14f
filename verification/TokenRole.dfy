/** `OpenBaoTokenRole`: the matcher is strict on lists that the encoder leaves out when empty. */
module TokenRole {
  import opened Kube
  import opened StringLists
  import opened RoleValues

  /** Durations are in nanoseconds. */
  datatype Spec = Spec(
    allowedEntityAliases: seq<string>, allowedPolicies: seq<string>, allowedPoliciesGlob: seq<string>,
    disallowedPolicies: seq<string>, disallowedPoliciesGlob: seq<string>, tokenBoundCIDRs: seq<string>,
    tokenExplicitMaxTTL: Option<int>, tokenPeriod: Option<int>, tokenNumUses: Option<int>,
    tokenNoDefaultPolicy: Option<bool>, tokenType: string, orphan: Option<bool>, renewable: Option<bool>,
    pathSuffix: string)

  /** `TokenRoleRequest`, durations in seconds, every field omitted when empty; `TokenRole` has the same fields. */
  datatype Role = Role(
    allowedEntityAliases: seq<string>, allowedPolicies: seq<string>, allowedPoliciesGlob: seq<string>,
    disallowedPolicies: seq<string>, disallowedPoliciesGlob: seq<string>, tokenBoundCIDRs: seq<string>,
    tokenExplicitMaxTTL: Option<int>, tokenPeriod: Option<int>, tokenNumUses: Option<int>,
    tokenNoDefaultPolicy: Option<bool>, tokenType: string, orphan: Option<bool>, renewable: Option<bool>,
    pathSuffix: string)

  ghost predicate ValidSpec(s: Spec) {
    && NoBlank(s.allowedEntityAliases) && NoBlank(s.allowedPolicies) && NoBlank(s.allowedPoliciesGlob)
    && NoBlank(s.disallowedPolicies) && NoBlank(s.disallowedPoliciesGlob) && NoBlank(s.tokenBoundCIDRs)
    && WholeSeconds(s.tokenExplicitMaxTTL) && WholeSeconds(s.tokenPeriod)
  }

  function Desired(s: Spec): Role {
    Role(NormalizeTrimmed(s.allowedEntityAliases), NormalizeTrimmed(s.allowedPolicies),
         NormalizeTrimmed(s.allowedPoliciesGlob), NormalizeTrimmed(s.disallowedPolicies),
         NormalizeTrimmed(s.disallowedPoliciesGlob), NormalizeTrimmed(s.tokenBoundCIDRs),
         SecondsOf(s.tokenExplicitMaxTTL), SecondsOf(s.tokenPeriod), s.tokenNumUses, s.tokenNoDefaultPolicy,
         TrimSpace(s.tokenType), s.orphan, s.renewable, TrimSpace(s.pathSuffix))
  }

  /** Where every field of the request comes from. */
  ghost predicate FromSpec(s: Spec, q: Role) {
    && SentList(s.allowedEntityAliases, q.allowedEntityAliases) && SentList(s.allowedPolicies, q.allowedPolicies)
    && SentList(s.allowedPoliciesGlob, q.allowedPoliciesGlob) && SentList(s.disallowedPolicies, q.disallowedPolicies)
    && SentList(s.disallowedPoliciesGlob, q.disallowedPoliciesGlob) && SentList(s.tokenBoundCIDRs, q.tokenBoundCIDRs)
    && SentSeconds(s.tokenExplicitMaxTTL, q.tokenExplicitMaxTTL) && SentSeconds(s.tokenPeriod, q.tokenPeriod)
    && q.tokenNumUses == s.tokenNumUses && q.tokenNoDefaultPolicy == s.tokenNoDefaultPolicy
    && q.tokenType == TrimSpace(s.tokenType) && q.orphan == s.orphan && q.renewable == s.renewable
    && q.pathSuffix == TrimSpace(s.pathSuffix)
  }

  lemma DesiredFromSpec(s: Spec)
    requires ValidSpec(s)
    ensures FromSpec(s, Desired(s))
  {
    hide NormalizeTrimmed, TrimSpace, WholeSeconds, SecondsOf, SentList, SentSeconds;
    SentListHolds(s.allowedEntityAliases);
    SentListHolds(s.allowedPolicies);
    SentListHolds(s.allowedPoliciesGlob);
    SentListHolds(s.disallowedPolicies);
    SentListHolds(s.disallowedPoliciesGlob);
    SentListHolds(s.tokenBoundCIDRs);
    SentSecondsHold(s.tokenExplicitMaxTTL);
    SentSecondsHold(s.tokenPeriod);
  }

  /** `desiredTokenRoleRequest`: field by field, stopping at the first refused one. */
  method DesiredRequest(s: Spec) returns (ok: bool, request: Role)
    ensures ok <==> ValidSpec(s)
    ensures ok ==> request == Desired(s)
    ensures ok ==> FromSpec(s, request)
  {
    hide NormalizeTrimmed, TrimSpace, WholeSeconds, SecondsOf, FromSpec;
    if ValidSpec(s) { DesiredFromSpec(s); }
    request := Role([], [], [], [], [], [], None, None, None, None, "", None, None, "");
    var values, seconds;
    ok, values := CheckedRoleValues(s.allowedEntityAliases);
    if !ok { return; }
    request := request.(allowedEntityAliases := values);
    ok, values := CheckedRoleValues(s.allowedPolicies);
    if !ok { return; }
    request := request.(allowedPolicies := values);
    ok, values := CheckedRoleValues(s.allowedPoliciesGlob);
    if !ok { return; }
    request := request.(allowedPoliciesGlob := values);
    ok, values := CheckedRoleValues(s.disallowedPolicies);
    if !ok { return; }
    request := request.(disallowedPolicies := values);
    ok, values := CheckedRoleValues(s.disallowedPoliciesGlob);
    if !ok { return; }
    request := request.(disallowedPoliciesGlob := values);
    ok, values := CheckedRoleValues(s.tokenBoundCIDRs);
    if !ok { return; }
    request := request.(tokenBoundCIDRs := values);
    ok, seconds := OptionalDurationSeconds(s.tokenExplicitMaxTTL);
    if !ok { return; }
    request := request.(tokenExplicitMaxTTL := seconds);
    ok, seconds := OptionalDurationSeconds(s.tokenPeriod);
    if !ok { return; }
    request := request.(tokenPeriod := seconds);
    request := request.(tokenNumUses := s.tokenNumUses, tokenNoDefaultPolicy := s.tokenNoDefaultPolicy);
    request := request.(orphan := s.orphan, renewable := s.renewable);
    request := request.(tokenType := TrimSpace(s.tokenType), pathSuffix := TrimSpace(s.pathSuffix));
  }

  /** The server: a field present in the request overwrites, an omitted one stays. */
  function Write(role: Role, q: Role): Role {
    Role(KeptSeq(q.allowedEntityAliases, role.allowedEntityAliases), KeptSeq(q.allowedPolicies, role.allowedPolicies),
         KeptSeq(q.allowedPoliciesGlob, role.allowedPoliciesGlob), KeptSeq(q.disallowedPolicies, role.disallowedPolicies),
         KeptSeq(q.disallowedPoliciesGlob, role.disallowedPoliciesGlob), KeptSeq(q.tokenBoundCIDRs, role.tokenBoundCIDRs),
         Kept(q.tokenExplicitMaxTTL, role.tokenExplicitMaxTTL), Kept(q.tokenPeriod, role.tokenPeriod),
         Kept(q.tokenNumUses, role.tokenNumUses), Kept(q.tokenNoDefaultPolicy, role.tokenNoDefaultPolicy),
         KeptSeq(q.tokenType, role.tokenType), Kept(q.orphan, role.orphan), Kept(q.renewable, role.renewable),
         KeptSeq(q.pathSuffix, role.pathSuffix))
  }

  /** `normalizedTokenRole`: what the matcher and the recorded configuration hash look at. */
  function Observed(role: Role): Role {
    role.(allowedEntityAliases := NormalizeTrimmed(role.allowedEntityAliases),
          allowedPolicies := NormalizeTrimmed(role.allowedPolicies),
          allowedPoliciesGlob := NormalizeTrimmed(role.allowedPoliciesGlob),
          disallowedPolicies := NormalizeTrimmed(role.disallowedPolicies),
          disallowedPoliciesGlob := NormalizeTrimmed(role.disallowedPoliciesGlob),
          tokenBoundCIDRs := NormalizeTrimmed(role.tokenBoundCIDRs))
  }

  /** `tokenRoleMatches`: lists must be equal, even those the spec leaves empty. */
  predicate Matches(q: Role, role: Role) {
    var n := Observed(role);
    && q.allowedEntityAliases == n.allowedEntityAliases && q.allowedPolicies == n.allowedPolicies
    && q.allowedPoliciesGlob == n.allowedPoliciesGlob && q.disallowedPolicies == n.disallowedPolicies
    && q.disallowedPoliciesGlob == n.disallowedPoliciesGlob && q.tokenBoundCIDRs == n.tokenBoundCIDRs
    && OptionalMatches(q.tokenExplicitMaxTTL, n.tokenExplicitMaxTTL) && OptionalMatches(q.tokenPeriod, n.tokenPeriod)
    && OptionalMatches(q.tokenNumUses, n.tokenNumUses) && OptionalMatches(q.tokenNoDefaultPolicy, n.tokenNoDefaultPolicy)
    && OptionalMatches(q.orphan, n.orphan) && OptionalMatches(q.renewable, n.renewable)
    && SeqMatches(q.tokenType, n.tokenType) && SeqMatches(q.pathSuffix, n.pathSuffix)
  }

  /** A role matches exactly when every list has the same values and it has every other field the spec sets. */
  lemma MatchesExactly(s: Spec, role: Role)
    requires ValidSpec(s)
    ensures Matches(Desired(s), role) <==>
              && SameTrimmed(s.allowedEntityAliases, role.allowedEntityAliases)
              && SameTrimmed(s.allowedPolicies, role.allowedPolicies)
              && SameTrimmed(s.allowedPoliciesGlob, role.allowedPoliciesGlob)
              && SameTrimmed(s.disallowedPolicies, role.disallowedPolicies)
              && SameTrimmed(s.disallowedPoliciesGlob, role.disallowedPoliciesGlob)
              && SameTrimmed(s.tokenBoundCIDRs, role.tokenBoundCIDRs)
              && HasSeconds(s.tokenExplicitMaxTTL, role.tokenExplicitMaxTTL) && HasSeconds(s.tokenPeriod, role.tokenPeriod)
              && HasValue(s.tokenNumUses, role.tokenNumUses) && HasValue(s.tokenNoDefaultPolicy, role.tokenNoDefaultPolicy)
              && HasValue(s.orphan, role.orphan) && HasValue(s.renewable, role.renewable)
              && HasText(s.tokenType, role.tokenType) && HasText(s.pathSuffix, role.pathSuffix)
  {
    hide NormalizeTrimmed, TrimSpace, WholeSeconds, SecondsOf, SameTrimmed, HasSeconds;
    NormalizeTrimmedDecides(s.allowedEntityAliases, role.allowedEntityAliases);
    NormalizeTrimmedDecides(s.allowedPolicies, role.allowedPolicies);
    NormalizeTrimmedDecides(s.allowedPoliciesGlob, role.allowedPoliciesGlob);
    NormalizeTrimmedDecides(s.disallowedPolicies, role.disallowedPolicies);
    NormalizeTrimmedDecides(s.disallowedPoliciesGlob, role.disallowedPoliciesGlob);
    NormalizeTrimmedDecides(s.tokenBoundCIDRs, role.tokenBoundCIDRs);
    SentSecondsHold(s.tokenExplicitMaxTTL);
    SentSecondsHold(s.tokenPeriod);
  }

  /** Every list the spec leaves empty is empty on the role too. */
  predicate EmptyListsAgree(s: Spec, role: Role) {
    && (s.allowedEntityAliases == [] ==> role.allowedEntityAliases == [])
    && (s.allowedPolicies == [] ==> role.allowedPolicies == [])
    && (s.allowedPoliciesGlob == [] ==> role.allowedPoliciesGlob == [])
    && (s.disallowedPolicies == [] ==> role.disallowedPolicies == [])
    && (s.disallowedPoliciesGlob == [] ==> role.disallowedPoliciesGlob == [])
    && (s.tokenBoundCIDRs == [] ==> role.tokenBoundCIDRs == [])
  }

  /** One list of the request against the list stored after the write. */
  lemma ListAgrees(specified: seq<string>, stored: seq<string>)
    ensures var sent := NormalizeTrimmed(specified);
            && (sent == NormalizeTrimmed(KeptSeq(sent, stored)) <==> (specified == [] ==> stored == []))
            && (sent == NormalizeTrimmed(stored) <==>
                  (specified == [] ==> stored == []) && NormalizeTrimmed(KeptSeq(sent, stored)) == NormalizeTrimmed(stored))
  {
    hide NormalizeTrimmed;
    NormalizeTrimmedIdempotent(specified);
    NormalizeTrimmedCanonical(specified);
    NormalizeTrimmedCanonical(stored);
  }

  /**
   The role read back after a write matches if and only if no list left empty was set on the
   server; and a role matches as it stands exactly when that holds and a write would change
   nothing visible.
   */
  lemma WriteThenMatchIff(s: Spec, role: Role)
    ensures Matches(Desired(s), Write(role, Desired(s))) <==> EmptyListsAgree(s, role)
    ensures Matches(Desired(s), role) <==>
              EmptyListsAgree(s, role) && Observed(Write(role, Desired(s))) == Observed(role)
  {
    hide NormalizeTrimmed, TrimSpace;
    ListAgrees(s.allowedEntityAliases, role.allowedEntityAliases);
    ListAgrees(s.allowedPolicies, role.allowedPolicies);
    ListAgrees(s.allowedPoliciesGlob, role.allowedPoliciesGlob);
    ListAgrees(s.disallowedPolicies, role.disallowedPolicies);
    ListAgrees(s.disallowedPoliciesGlob, role.disallowedPoliciesGlob);
    ListAgrees(s.tokenBoundCIDRs, role.tokenBoundCIDRs);
  }

  function PlanOf(s: Spec, defaults: Role): Plan<Role> {
    var q := Desired(s);
    Plan(defaults, (r: Role) => Write(r, q), (r: Role) => Matches(q, r))
  }

  /**
   The number of writes over n passes: none if the role matches, one if only lists named in the
   spec have to change, and one in every pass, for ever and to no effect, if the server holds a
   list that the spec leaves empty.
   */
  lemma WritesOverTime(s: Spec, defaults: Role, prior: Role, n: nat)
    ensures var p := PlanOf(s, defaults);
            Passes(p, Some(prior), n).1 ==
            if n == 0 || Matches(Desired(s), prior) then 0
            else if EmptyListsAgree(s, prior) then 1 else n
    ensures n > 0 && !Matches(Desired(s), prior) ==>
              Passes(PlanOf(s, defaults), Some(prior), n).0 == Some(Write(prior, Desired(s)))
  {
    hide Matches, Desired, EmptyListsAgree;
    WriteThenMatchIff(s, prior);
    WritesOverPasses(PlanOf(s, defaults), prior, n);
  }

  /** Emptying `allowedPolicies` in the spec leaves the old list on the server. */
  lemma EmptiedListStays(s: Spec, prior: Role)
    requires s.allowedPolicies == []
    ensures Write(prior, Desired(s)).allowedPolicies == prior.allowedPolicies
    ensures prior.allowedPolicies != [] ==> !Matches(Desired(s), Write(prior, Desired(s)))
  {
    hide NormalizeTrimmed, TrimSpace, Matches;
    NormalizeTrimmedCanonical(s.allowedPolicies);
    WriteThenMatchIff(s, prior);
  }
}
