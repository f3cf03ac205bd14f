/** The token side of `openbaoclient.Client` as one caller drives it. */
module TokenClient {
  import opened Kube
  import opened StringLists
  import opened TokenLease

  datatype AuthMethod = Static | KubernetesAuth | AppRole {
    predicate UsesDynamicAuth() { this != Static }
  }

  /** What a credential source returns: an error, or a value that may be blank. */
  datatype Credential = Unavailable | Value(text: string) {
    predicate Usable() { Value? && TrimSpace(text) != "" }
  }

  /** The outside world during one `ensureToken`; `None` is a call that returned an error. */
  datatype EnsureInput = EnsureInput(
    now: int, renewal: Option<TokenAuth>, renewedAt: int,
    jwt: Credential, roleID: Credential, secretID: Credential,
    login: Option<TokenAuth>, loggedInAt: int)

  /** The end of one request with a token. */
  datatype Reply = Success | Status(code: int) | TransportError

  predicate IsUnauthorized(r: Reply) {
    r.Status? && (r.code == 401 || r.code == 403)
  }

  datatype Event =
    | Renewal(token: string, granted: bool)
    | Login(issued: Option<string>)
    | Attempt(token: string, reply: Reply)

  datatype Session = Session(token: string, lease: Lease)

  datatype EnsureResult = EnsureResult(ok: bool, session: Session, events: seq<Event>, lastReading: int)

  predicate CredentialsUsable(auth: AuthMethod, e: EnsureInput) {
    if auth == KubernetesAuth then e.jwt.Usable() else e.roleID.Usable() && e.secretID.Usable()
  }

  /** The login half of `ensureToken`. */
  function LogIn(auth: AuthMethod, s: Session, e: EnsureInput, before: seq<Event>): EnsureResult {
    if !CredentialsUsable(auth, e) then EnsureResult(false, s, before, e.now)
    else if e.login.None? || TrimSpace(e.login.value.clientToken) == "" then
      EnsureResult(false, s, before + [Login(None)], e.now)
    else
      EnsureResult(true, Session(e.login.value.clientToken, NewTokenLease(e.login.value, e.loggedInAt)),
                   before + [Login(Some(e.login.value.clientToken))], e.loggedInAt)
  }

  function Ensure(auth: AuthMethod, s: Session, e: EnsureInput): EnsureResult {
    if !auth.UsesDynamicAuth() then EnsureResult(true, s, [], e.now)
    else if s.token != "" && !TokenNeedsRefresh(s.lease, e.now) then EnsureResult(true, s, [], e.now)
    else if s.token != "" && s.lease.renewable then
      if e.renewal.Some? then
        EnsureResult(true, Session(s.token, NewTokenLease(e.renewal.value, e.renewedAt)), [Renewal(s.token, true)], e.renewedAt)
      else LogIn(auth, s, e, [Renewal(s.token, false)])
    else LogIn(auth, s, e, [])
  }

  datatype CallResult = CallResult(ok: bool, session: Session, events: seq<Event>)

  /** `doSegmentsQuery`: one request, and one more after a rejection on dynamic auth. */
  function Call(auth: AuthMethod, s: Session, e1: EnsureInput, r1: Reply, e2: EnsureInput, r2: Reply): CallResult {
    var first := Ensure(auth, s, e1);
    if !first.ok then CallResult(false, first.session, first.events)
    else
      var tried := first.events + [Attempt(first.session.token, r1)];
      if !(IsUnauthorized(r1) && auth.UsesDynamicAuth()) then CallResult(r1.Success?, first.session, tried)
      else
        var second := Ensure(auth, Session("", ZERO_LEASE), e2);
        if !second.ok then CallResult(false, second.session, tried + second.events)
        else CallResult(r2.Success?, second.session, tried + second.events + [Attempt(second.session.token, r2)])
  }

  // ---------------------------------------------------------------------------
  // Properties
  // ---------------------------------------------------------------------------

  function CountAttempts(es: seq<Event>): nat {
    if es == [] then 0 else (if es[0].Attempt? then 1 else 0) + CountAttempts(es[1..])
  }

  function CountLogins(es: seq<Event>): nat {
    if es == [] then 0 else (if es[0].Login? then 1 else 0) + CountLogins(es[1..])
  }

  function CountRenewals(es: seq<Event>): nat {
    if es == [] then 0 else (if es[0].Renewal? then 1 else 0) + CountRenewals(es[1..])
  }

  lemma {:induction false} CountsAdd(a: seq<Event>, b: seq<Event>)
    ensures CountAttempts(a + b) == CountAttempts(a) + CountAttempts(b)
    ensures CountLogins(a + b) == CountLogins(a) + CountLogins(b)
    ensures CountRenewals(a + b) == CountRenewals(a) + CountRenewals(b)
  {
    if a == [] {
      assert a + b == b;
    } else {
      CountsAdd(a[1..], b);
      assert (a + b)[1..] == a[1..] + b;
    }
  }

  lemma EnsureCounts(auth: AuthMethod, s: Session, e: EnsureInput)
    ensures var r := Ensure(auth, s, e);
            && CountAttempts(r.events) == 0 && CountLogins(r.events) <= 1 && CountRenewals(r.events) <= 1
            && (s.token == "" ==> CountRenewals(r.events) == 0)
            && (s.token == "" && r.ok && auth.UsesDynamicAuth() ==> r.events == [Login(Some(r.session.token))])
  {
    CountsAdd([Renewal(s.token, false)], [Login(None)]);
    if e.login.Some? {
      CountsAdd([Renewal(s.token, false)], [Login(Some(e.login.value.clientToken))]);
    }
  }

  /** A failed `ensureToken` leaves token and lease as they were. */
  lemma FailedEnsureKeepsSession(auth: AuthMethod, s: Session, e: EnsureInput)
    requires !Ensure(auth, s, e).ok
    ensures Ensure(auth, s, e).session == s
  {
  }

  /**
   A successful `ensureToken` on dynamic auth leaves a non-empty token whose lease needs no
   refresh at the last clock reading taken, unless a granted lease overflowed int64 nanoseconds.
   */
  lemma EnsureLeavesUsableLease(auth: AuthMethod, s: Session, e: EnsureInput)
    requires auth.UsesDynamicAuth() && Ensure(auth, s, e).ok
    requires ClockReading(e.renewedAt) && ClockReading(e.loggedInAt)
    ensures var r := Ensure(auth, s, e);
            && r.session.token != ""
            && (TokenNeedsRefresh(r.session.lease, r.lastReading) <==>
                  || (r.events != [] && r.events[0] == Renewal(s.token, true) && Overflows(e.renewal.value))
                  || (r.events != [] && r.events[|r.events| - 1].Login? && Overflows(e.login.value)))
  {
    if e.renewal.Some? { FreshLeaseNeedsRefreshIff(e.renewal.value, e.renewedAt); }
    if e.login.Some? { FreshLeaseNeedsRefreshIff(e.login.value, e.loggedInAt); }
  }

  /**
   Every call of a single caller makes at most two attempts, two logins and one renewal. A second
   attempt happens only after a 401 or 403 on dynamic auth, and the events after that rejection
   are exactly one login and the attempt that carries the token of that login.
   */
  lemma SingleCallerBounds(auth: AuthMethod, s: Session, e1: EnsureInput, r1: Reply, e2: EnsureInput, r2: Reply)
    ensures var c := Call(auth, s, e1, r1, e2, r2);
            && CountAttempts(c.events) <= 2 && CountLogins(c.events) <= 2 && CountRenewals(c.events) <= 1
            && (CountAttempts(c.events) == 2 ==>
                  && auth.UsesDynamicAuth() && IsUnauthorized(r1)
                  && exists before, t1, t2 :: c.events == before + [Attempt(t1, r1), Login(Some(t2)), Attempt(t2, r2)]
                                              && CountAttempts(before) == 0 && c.session.token == t2)
  {
    EnsureCounts(auth, s, e1);
    var first := Ensure(auth, s, e1);
    var a1 := [Attempt(first.session.token, r1)];
    CountsAdd(first.events, a1);
    if first.ok && IsUnauthorized(r1) && auth.UsesDynamicAuth() {
      var empty := Session("", ZERO_LEASE);
      EnsureCounts(auth, empty, e2);
      var second := Ensure(auth, empty, e2);
      CountsAdd(first.events + a1, second.events);
      if second.ok {
        var a2 := [Attempt(second.session.token, r2)];
        CountsAdd(first.events + a1 + second.events, a2);
        assert first.events + a1 + second.events + a2 ==
               first.events + [Attempt(first.session.token, r1), Login(Some(second.session.token)), Attempt(second.session.token, r2)];
      }
    }
  }

  /** The credentials a login of this kind reads are there and not blank. */
  predicate MayLogIn(auth: AuthMethod, e: EnsureInput) {
    match auth
    case Static => false
    case KubernetesAuth => e.jwt.Value? && TrimSpace(e.jwt.text) != ""
    case AppRole => e.roleID.Value? && TrimSpace(e.roleID.text) != "" && e.secretID.Value? && TrimSpace(e.secretID.text) != ""
  }

  /** The login is answered with a token that is not blank. */
  predicate LoginGranted(e: EnsureInput) {
    e.login.Some? && TrimSpace(e.login.value.clientToken) != ""
  }

  /**
   Which calls `ensureToken` makes, and when. A static token, and one whose lease needs no refresh,
   is reused without any call; a renewal is tried exactly for a held token that is due and
   renewable; a login exactly when no token is held, or the one due is not renewable or was refused,
   and the credentials can be read.
   */
  lemma EnsureCalls(auth: AuthMethod, s: Session, e: EnsureInput)
    ensures var r := Ensure(auth, s, e);
            var due := s.token != "" && TokenNeedsRefresh(s.lease, e.now);
            var login := s.token == "" || (due && (!s.lease.renewable || e.renewal.None?));
            && (auth == Static || (s.token != "" && !due) ==> r.ok && r.session == s && r.events == [])
            && (Renewal(s.token, e.renewal.Some?) in r.events <==> auth != Static && due && s.lease.renewable)
            && ((exists t :: Login(t) in r.events) <==> login && MayLogIn(auth, e))
            && (forall k :: 0 <= k < |r.events| && r.events[k].Renewal? ==> k == 0 && r.events[k] == Renewal(s.token, e.renewal.Some?))
            && (forall k :: 0 <= k < |r.events| && r.events[k].Login? ==>
                  k == |r.events| - 1 && r.events[k] == Login(if LoginGranted(e) then Some(e.login.value.clientToken) else None))
  {
    var r := Ensure(auth, s, e);
    if r.events != [] {
      assert r.events[|r.events| - 1] in r.events && r.events[0] in r.events;
    }
  }

  /** When `ensureToken` succeeds, and the session it leaves. */
  lemma EnsureOutcome(auth: AuthMethod, s: Session, e: EnsureInput)
    ensures var r := Ensure(auth, s, e);
            var due := s.token != "" && TokenNeedsRefresh(s.lease, e.now);
            var renewed := due && s.lease.renewable && e.renewal.Some?;
            if auth == Static || (s.token != "" && !due) then r.ok && r.session == s
            else if renewed then r.ok && r.session == Session(s.token, NewTokenLease(e.renewal.value, e.renewedAt))
            else
              && (r.ok <==> MayLogIn(auth, e) && LoginGranted(e))
              && r.session == if r.ok then Session(e.login.value.clientToken, NewTokenLease(e.login.value, e.loggedInAt)) else s
  {
  }

  /**
   One API call from beginning to end: it fails without a token; its first attempt carries the token
   ensured; it is tried again exactly after a 401 or 403 on dynamic auth followed by a granted
   login; it succeeds exactly with its last attempt; and a rejected token is gone afterwards.
   */
  lemma CallOutcome(auth: AuthMethod, s: Session, e1: EnsureInput, r1: Reply, e2: EnsureInput, r2: Reply)
    ensures var c := Call(auth, s, e1, r1, e2, r2);
            var first := Ensure(auth, s, e1);
            var rejected := auth != Static && (r1 == Status(401) || r1 == Status(403));
            var again := MayLogIn(auth, e2) && LoginGranted(e2);
            if !first.ok then !c.ok && c.session == s && c.events == first.events
            else if !rejected then
              && c.ok == r1.Success? && c.session == first.session
              && c.events == first.events + [Attempt(first.session.token, r1)]
            else
              && first.events + [Attempt(first.session.token, r1)] <= c.events
              && (if again then
                    && c.ok == r2.Success?
                    && c.session == Session(e2.login.value.clientToken, NewTokenLease(e2.login.value, e2.loggedInAt))
                    && c.events == first.events + [Attempt(first.session.token, r1), Login(Some(c.session.token)), Attempt(c.session.token, r2)]
                  else !c.ok && c.session == Session("", Lease(0, 0, false)) && Attempt(first.session.token, r1) in c.events)
  {
    hide TokenNeedsRefresh, NewTokenLease, TrimSpace;
    EnsureOutcome(auth, s, e1);
    EnsureOutcome(auth, Session("", ZERO_LEASE), e2);
    EnsureCounts(auth, Session("", ZERO_LEASE), e2);
  }

  // ---------------------------------------------------------------------------
  // The client object
  // ---------------------------------------------------------------------------

  class Client {
    const auth: AuthMethod
    var token: string
    var lease: Lease
    var log: seq<Event>

    /** A dynamic-auth client starts without a token; a static one keeps the token it was given. */
    constructor (auth: AuthMethod, staticToken: string)
      ensures this.auth == auth && log == [] && lease == ZERO_LEASE
      ensures token == if auth.UsesDynamicAuth() then "" else staticToken
    {
      this.auth := auth;
      this.token := if auth.UsesDynamicAuth() then "" else staticToken;
      this.lease := ZERO_LEASE;
      this.log := [];
    }

    method CurrentToken() returns (t: string)
      ensures t == token
    {
      t := token;
    }

    method InvalidateToken()
      modifies this`token, this`lease
      ensures token == "" && lease == ZERO_LEASE
    {
      token := "";
      lease := ZERO_LEASE;
    }

    method EnsureToken(e: EnsureInput) returns (ok: bool)
      modifies this
      ensures var r := Ensure(auth, old(Session(token, lease)), e);
              ok == r.ok && Session(token, lease) == r.session && log == old(log) + r.events
    {
      if !auth.UsesDynamicAuth() { return true; }
      if token != "" && !TokenNeedsRefresh(lease, e.now) { return true; }
      if token != "" && lease.renewable {
        log := log + [Renewal(token, e.renewal.Some?)];
        if e.renewal.Some? {
          lease := NewTokenLease(e.renewal.value, e.renewedAt);
          return true;
        }
      }
      if auth == KubernetesAuth {
        if !e.jwt.Usable() { return false; }
      } else {
        if !e.roleID.Usable() { return false; }
        if !e.secretID.Usable() { return false; }
      }
      if e.login.None? || TrimSpace(e.login.value.clientToken) == "" {
        log := log + [Login(None)];
        return false;
      }
      log := log + [Login(Some(e.login.value.clientToken))];
      token := e.login.value.clientToken;
      lease := NewTokenLease(e.login.value, e.loggedInAt);
      ok := true;
    }

    method DoSegmentsQuery(e1: EnsureInput, r1: Reply, e2: EnsureInput, r2: Reply) returns (ok: bool)
      modifies this
      ensures var c := Call(auth, old(Session(token, lease)), e1, r1, e2, r2);
              ok == c.ok && Session(token, lease) == c.session && log == old(log) + c.events
    {
      ok := EnsureToken(e1);
      if !ok { return; }
      var t := CurrentToken();
      log := log + [Attempt(t, r1)];
      if !IsUnauthorized(r1) || !auth.UsesDynamicAuth() {
        return r1.Success?;
      }
      InvalidateToken();
      ok := EnsureToken(e2);
      if !ok { return; }
      t := CurrentToken();
      log := log + [Attempt(t, r2)];
      ok := r2.Success?;
    }
  }
}
