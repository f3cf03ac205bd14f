/**
 Any number of goroutines calling `doSegmentsQuery` on one dynamic-auth client. The mutex is held
 across a whole `ensureToken`, including its HTTP calls, but it is free between `ensureToken` and
 `currentToken`. Every assignment to the shared fields is a step of its own.
 */
module TokenConcurrency {
  import opened Kube
  import opened StringLists
  import opened TokenLease
  import opened TokenClient

  /** Where a caller is; `second` marks the part after a rejected first attempt. */
  datatype Place =
    | Idle
    | WantEnsure(second: bool)
    | Checking(second: bool)                               // holds the mutex
    | Renewing(second: bool)                               // holds the mutex
    | LoggingIn(second: bool)                              // holds the mutex
    | StoringToken(second: bool, token: string, lease: Lease)  // holds the mutex
    | StoringLease(second: bool, lease: Lease)             // holds the mutex, token already stored
    | Releasing(second: bool, ok: bool)                    // holds the mutex
    | WantToken(second: bool, seen: nat)
    | Sending(second: bool, token: string)
    | WantInvalidate
    | ClearingToken                                        // holds the mutex
    | ClearingLease                                        // holds the mutex, token already cleared
    | ReleasingCleared                                     // holds the mutex
    | Returned(ok: bool)
  {
    predicate Holds() {
      Checking? || Renewing? || LoggingIn? || StoringToken? || StoringLease? || Releasing?
      || ClearingToken? || ClearingLease? || ReleasingCleared?
    }
  }

  /** A caller, with what its current call has done so far. */
  datatype Caller = Caller(place: Place, attempts: nat, logins: nat, renewals: nat)

  /**
   The shared client. `issued` holds every (token, lease) pair that a login or a renewal of that
   token produced; `cleared` counts the invalidations, and `storedAt` is that count when a login last
   stored a token.
   */
  datatype State = State(
    token: string, lease: Lease, holder: Option<nat>, callers: map<nat, Caller>,
    issued: set<(string, Lease)>, cleared: nat, storedAt: Option<nat>)

  /** What the outside contributes to a step: a clock reading, replies, usable credentials. */
  datatype Choice = Choice(now: int, renewal: Option<TokenAuth>, credentials: bool, login: Option<TokenAuth>, reply: Reply)

  function Move(s: State, t: nat, place: Place): State
    requires t in s.callers
  {
    s.(callers := s.callers[t := s.callers[t].(place := place)])
  }

  /** One step of caller `t`; a caller that waits for the mutex stays put. */
  function Step(s: State, t: nat, c: Choice): State
    requires t in s.callers
  {
    var me := s.callers[t];
    match me.place
    case Idle => s.(callers := s.callers[t := Caller(WantEnsure(false), 0, 0, 0)])
    case WantEnsure(second) =>
      if s.holder.Some? then s else Move(s, t, Checking(second)).(holder := Some(t))
    case Checking(second) =>
      if s.token != "" && !TokenNeedsRefresh(s.lease, c.now) then Move(s, t, Releasing(second, true))
      else if s.token != "" && s.lease.renewable then Move(s, t, Renewing(second))
      else Move(s, t, LoggingIn(second))
    case Renewing(second) =>
      var counted := me.(renewals := me.renewals + 1);
      if c.renewal.Some? then
        var lease := NewTokenLease(c.renewal.value, c.now);
        s.(lease := lease, issued := s.issued + {(s.token, lease)},
           callers := s.callers[t := counted.(place := Releasing(second, true))])
      else s.(callers := s.callers[t := counted.(place := LoggingIn(second))])
    case LoggingIn(second) =>
      if !c.credentials then Move(s, t, Releasing(second, false))
      else
        var counted := me.(logins := me.logins + 1);
        if c.login.None? || TrimSpace(c.login.value.clientToken) == "" then
          s.(callers := s.callers[t := counted.(place := Releasing(second, false))])
        else
          var token, lease := c.login.value.clientToken, NewTokenLease(c.login.value, c.now);
          s.(issued := s.issued + {(token, lease)},
             callers := s.callers[t := counted.(place := StoringToken(second, token, lease))])
    case StoringToken(second, token, lease) => Move(s, t, StoringLease(second, lease)).(token := token, storedAt := Some(s.cleared))
    case StoringLease(second, lease) => Move(s, t, Releasing(second, true)).(lease := lease)
    case Releasing(second, ok) =>
      Move(s, t, if ok then WantToken(second, s.cleared) else Returned(false)).(holder := None)
    case WantToken(second, _) =>
      if s.holder.Some? then s else Move(s, t, Sending(second, s.token))
    case Sending(second, token) =>
      var counted := me.(attempts := me.attempts + 1);
      var next := if IsUnauthorized(c.reply) && !second then WantInvalidate else Returned(c.reply.Success?);
      s.(callers := s.callers[t := counted.(place := next)])
    case WantInvalidate =>
      if s.holder.Some? then s else Move(s, t, ClearingToken).(holder := Some(t))
    case ClearingToken => Move(s, t, ClearingLease).(token := "", cleared := s.cleared + 1)
    case ClearingLease => Move(s, t, ReleasingCleared).(lease := ZERO_LEASE)
    case ReleasingCleared => Move(s, t, WantEnsure(true)).(holder := None)
    case Returned(_) => Move(s, t, Idle)
  }

  /** An interleaving: which caller moves, and what it is answered. */
  predicate Runs(s: State, schedule: seq<(nat, Choice)>) {
    forall k :: 0 <= k < |schedule| ==> schedule[k].0 in s.callers
  }

  function Run(s: State, schedule: seq<(nat, Choice)>): State
    requires Runs(s, schedule)
    decreases |schedule|
  {
    if schedule == [] then s
    else
      StepKeepsCallers(s, schedule[0].0, schedule[0].1);
      Run(Step(s, schedule[0].0, schedule[0].1), schedule[1..])
  }

  lemma StepKeepsCallers(s: State, t: nat, c: Choice)
    requires t in s.callers
    ensures Step(s, t, c).callers.Keys == s.callers.Keys
    ensures forall u :: u in s.callers && u != t ==> Step(s, t, c).callers[u] == s.callers[u]
  {
  }

  // ---------------------------------------------------------------------------
  // The shared fields
  // ---------------------------------------------------------------------------

  /** The lease belongs to the token, or both are empty. */
  ghost predicate Consistent(s: State) {
    if s.token == "" then s.lease == ZERO_LEASE else (s.token, s.lease) in s.issued
  }

  /** Exactly the holder is inside a critical section. */
  ghost predicate Exclusive(s: State) {
    && (s.holder.Some? ==> s.holder.value in s.callers)
    && forall t :: t in s.callers ==> (s.callers[t].place.Holds() <==> s.holder == Some(t))
  }

  /** What a caller knows at its place, given the shared fields. */
  ghost predicate Knows(s: State, place: Place) {
    match place
    case Renewing(_) => s.token != "" && Consistent(s)
    case StoringToken(_, token, lease) => token != "" && (token, lease) in s.issued && Consistent(s)
    case StoringLease(_, lease) => s.token != "" && (s.token, lease) in s.issued
    case Releasing(_, ok) => Consistent(s) && (ok ==> s.token != "")
    case Checking(_) => Consistent(s)
    case LoggingIn(_) => Consistent(s)
    case ClearingToken => Consistent(s)
    case ClearingLease => s.token == ""
    case ReleasingCleared => s.token == "" && Consistent(s)
    case WantToken(_, seen) => seen <= s.cleared && (s.holder.None? && seen == s.cleared ==> s.token != "")
    case Sending(_, token) => token == "" || exists lease :: (token, lease) in s.issued
    case _ => true
  }

  ghost predicate Inv(s: State) {
    && Exclusive(s)
    && (s.holder.None? ==> Consistent(s))
    && (forall t :: t in s.callers ==> Knows(s, s.callers[t].place))
    && KeepsToken(s)
    && (s.token == "" <==> s.storedAt != Some(s.cleared))
    && (s.storedAt.Some? ==> s.storedAt.value <= s.cleared)
  }

  /**
   While the mutex is held, a caller about to read has its token still in place unless an
   invalidation intervened: no step between two invalidations empties the token.
   */
  ghost predicate KeepsToken(s: State) {
    forall t :: t in s.callers && s.callers[t].place.WantToken? && s.callers[t].place.seen == s.cleared ==> s.token != ""
  }

  lemma StepKeepsExclusive(s: State, t: nat, c: Choice)
    requires Exclusive(s) && t in s.callers
    ensures Exclusive(Step(s, t, c))
  {
    StepKeepsCallers(s, t, c);
  }

  /** What a step of caller `t` does to the shared fields and to its own knowledge. */
  ghost predicate Shares(s: State, t: nat, s': State)
    requires t in s.callers && t in s'.callers
  {
    && s.issued <= s'.issued && s.cleared <= s'.cleared
    && Knows(s', s'.callers[t].place)
    && (s'.holder.None? ==> Consistent(s'))
    && (!s.callers[t].place.Holds() ==> s'.token == s.token && s'.lease == s.lease && s'.cleared == s.cleared)
    && (s'.token == "" && s.token != "" ==> s'.cleared == s.cleared + 1)
    && (s'.cleared != s.cleared ==> s.callers[t].place.ClearingToken?)
    && (s'.token == "" <==> s'.storedAt != Some(s'.cleared))
    && (s'.storedAt.Some? ==> s'.storedAt.value <= s'.cleared)
    && (s'.callers[t].place.WantToken? && s'.callers[t].place.seen == s'.cleared ==> s'.token != "")
  }

  lemma StepSharedInside(s: State, t: nat, c: Choice)
    requires Inv(s) && t in s.callers && s.callers[t].place.Holds()
    ensures t in Step(s, t, c).callers && Shares(s, t, Step(s, t, c))
  {
    hide TokenNeedsRefresh, NewTokenLease, IsUnauthorized;
    assert Knows(s, s.callers[t].place) && s.holder == Some(t);
    if s.callers[t].place.LoggingIn? && c.login.Some? && c.login.value.clientToken == "" {
      assert TrimSpace("") == "";
    }
  }

  lemma StepSharedOutside(s: State, t: nat, c: Choice)
    requires Inv(s) && t in s.callers && !s.callers[t].place.Holds()
    ensures t in Step(s, t, c).callers && Shares(s, t, Step(s, t, c))
  {
    hide TrimSpace, TokenNeedsRefresh, NewTokenLease, IsUnauthorized;
    assert Knows(s, s.callers[t].place) && s.holder != Some(t);
  }

  lemma StepShared(s: State, t: nat, c: Choice)
    requires Inv(s) && t in s.callers
    ensures t in Step(s, t, c).callers && Shares(s, t, Step(s, t, c))
  {
    hide Step, Inv, Shares;
    if s.callers[t].place.Holds() { StepSharedInside(s, t, c); } else { StepSharedOutside(s, t, c); }
  }

  /** A bystander's knowledge survives another caller's step. */
  lemma BystanderKnows(s: State, t: nat, c: Choice, u: nat)
    requires Inv(s) && t in s.callers && u in s.callers && u != t
    ensures Knows(Step(s, t, c), s.callers[u].place)
  {
    var s' := Step(s, t, c);
    StepShared(s, t, c);
    var place := s.callers[u].place;
    assert Knows(s, place);
    if place.Holds() {
      assert s.holder == Some(u);
      assert !s.callers[t].place.Holds();
    }
  }

  lemma StepKeepsInv(s: State, t: nat, c: Choice)
    requires Inv(s) && t in s.callers
    ensures Inv(Step(s, t, c))
  {
    hide Step, Knows, Consistent;
    var s' := Step(s, t, c);
    StepKeepsExclusive(s, t, c);
    StepShared(s, t, c);
    StepKeepsCallers(s, t, c);
    forall u | u in s'.callers ensures Knows(s', s'.callers[u].place) {
      if u != t { BystanderKnows(s, t, c, u); }
    }
    forall u | u in s'.callers && s'.callers[u].place.WantToken? && s'.callers[u].place.seen == s'.cleared
      ensures s'.token != ""
    {
      if u != t {
        WaitingSeen(s, u);
      }
    }
  }

  lemma WaitingSeen(s: State, u: nat)
    requires Inv(s) && u in s.callers && s.callers[u].place.WantToken?
    ensures s.callers[u].place.seen <= s.cleared
  {
    assert Knows(s, s.callers[u].place);
  }

  lemma {:induction false} RunKeepsInv(s: State, schedule: seq<(nat, Choice)>)
    requires Inv(s) && Runs(s, schedule)
    ensures Inv(Run(s, schedule))
    decreases |schedule|
  {
    if schedule != [] {
      StepKeepsCallers(s, schedule[0].0, schedule[0].1);
      StepKeepsInv(s, schedule[0].0, schedule[0].1);
      RunKeepsInv(Step(s, schedule[0].0, schedule[0].1), schedule[1..]);
    }
  }

  /** A new client and any number of callers that have not started. */
  predicate Initial(s: State) {
    && s.token == "" && s.lease == ZERO_LEASE && s.holder.None? && s.cleared == 0 && s.storedAt.None?
    && forall t :: t in s.callers ==> s.callers[t] == Caller(Idle, 0, 0, 0)
  }

  /**
   Under every interleaving, whenever the mutex is free the stored lease was issued by a login or
   renewal of exactly the stored token, and an empty token has the zero lease. At no time are two
   callers inside the critical section, and every token put on a request was issued or is empty.
   */
  lemma LeaseBelongsToToken(s: State, schedule: seq<(nat, Choice)>)
    requires Initial(s) && Runs(s, schedule)
    ensures var s' := Run(s, schedule);
            && (s'.holder.None? ==> if s'.token == "" then s'.lease == ZERO_LEASE else (s'.token, s'.lease) in s'.issued)
            && (forall t, u :: t in s'.callers && u in s'.callers && s'.callers[t].place.Holds() && s'.callers[u].place.Holds() ==> t == u)
            && (forall t :: t in s'.callers && s'.callers[t].place.Sending? ==>
                  s'.callers[t].place.token == "" || exists lease :: (s'.callers[t].place.token, lease) in s'.issued)
  {
    assert Inv(s);
    RunKeepsInv(s, schedule);
    var s' := Run(s, schedule);
    forall t | t in s'.callers && s'.callers[t].place.Sending?
      ensures s'.callers[t].place.token == "" || exists lease :: (s'.callers[t].place.token, lease) in s'.issued
    {
      assert Knows(s', s'.callers[t].place);
    }
  }

  /**
   The gap between `ensureToken` and `currentToken`, exactly: the token a caller reads there is
   empty if and only if some caller has invalidated it since this one released the mutex, and no
   login has stored a token since the last invalidation.
   */
  lemma EmptyTokenExactly(s: State, schedule: seq<(nat, Choice)>, t: nat, c: Choice)
    requires Initial(s) && Runs(s, schedule)
    requires var s' := Run(s, schedule);
             t in s'.callers && s'.callers[t].place.WantToken? && Step(s', t, c).callers[t].place.Sending?
    ensures var s' := Run(s, schedule);
            Step(s', t, c).callers[t].place.token == "" <==>
              s'.callers[t].place.seen < s'.cleared && (s'.storedAt.None? || s'.storedAt.value < s'.cleared)
  {
    assert Inv(s);
    RunKeepsInv(s, schedule);
    var s' := Run(s, schedule);
    assert Knows(s', s'.callers[t].place);
  }

  /** No answer in the schedule is a 401 or 403. */
  predicate NoRejection(schedule: seq<(nat, Choice)>) {
    forall k :: 0 <= k < |schedule| ==> !IsUnauthorized(schedule[k].1.reply)
  }

  /** Not on the way to invalidate, and not sending an empty token. */
  predicate Calm(place: Place) {
    && !place.WantInvalidate? && !place.ClearingToken? && !place.ClearingLease? && !place.ReleasingCleared?
    && (place.Sending? ==> place.token != "")
  }

  ghost predicate Untroubled(s: State) {
    s.cleared == 0 && forall t :: t in s.callers ==> Calm(s.callers[t].place)
  }

  lemma StepCalm(s: State, t: nat, c: Choice)
    requires t in s.callers && Calm(s.callers[t].place) && !IsUnauthorized(c.reply)
    requires s.callers[t].place.WantToken? && s.holder.None? ==> s.token != ""
    ensures Calm(Step(s, t, c).callers[t].place) && Step(s, t, c).cleared == s.cleared
  {
    hide TrimSpace, TokenNeedsRefresh, NewTokenLease, IsUnauthorized;
  }

  lemma StepKeepsUntroubled(s: State, t: nat, c: Choice)
    requires Inv(s) && Untroubled(s) && t in s.callers && !IsUnauthorized(c.reply)
    ensures Untroubled(Step(s, t, c))
  {
    hide Step, Consistent, IsUnauthorized, Calm;
    assert Knows(s, s.callers[t].place);
    StepKeepsCallers(s, t, c);
    StepCalm(s, t, c);
  }

  lemma {:induction false} RunKeepsUntroubled(s: State, schedule: seq<(nat, Choice)>)
    requires Inv(s) && Untroubled(s) && Runs(s, schedule) && NoRejection(schedule)
    ensures Untroubled(Run(s, schedule))
    decreases |schedule|
  {
    hide Step, Inv, Untroubled;
    if schedule != [] {
      var (t, c) := schedule[0];
      StepKeepsCallers(s, t, c);
      StepKeepsInv(s, t, c);
      StepKeepsUntroubled(s, t, c);
      assert forall k :: 0 <= k < |schedule[1..]| ==> schedule[1..][k] == schedule[k + 1];
      RunKeepsUntroubled(Step(s, t, c), schedule[1..]);
    }
  }

  /** As long as OpenBao rejects nothing, no request goes out without a token. */
  lemma NoRejectionNoEmptyToken(s: State, schedule: seq<(nat, Choice)>, t: nat)
    requires Initial(s) && Runs(s, schedule) && NoRejection(schedule)
    requires t in Run(s, schedule).callers && Run(s, schedule).callers[t].place.Sending?
    ensures Run(s, schedule).callers[t].place.token != ""
  {
    assert Inv(s) && Untroubled(s);
    RunKeepsUntroubled(s, schedule);
  }

  // ---------------------------------------------------------------------------
  // The work of one call
  // ---------------------------------------------------------------------------

  /** How much a caller can have done by the time it is at a place. */
  ghost predicate Bounded(c: Caller) {
    match c.place
    case Idle => true
    case WantEnsure(second) => Within(c, Round(second), 0, 0)
    case Checking(second) => Within(c, Round(second), 0, 0)
    case Renewing(second) => Within(c, Round(second), 0, 0)
    case LoggingIn(second) => Within(c, Round(second), 0, 1)
    case StoringToken(second, _, _) => Within(c, Round(second), 1, 1)
    case StoringLease(second, _) => Within(c, Round(second), 1, 1)
    case Releasing(second, _) => Within(c, Round(second), 1, 1)
    case WantToken(second, _) => Within(c, Round(second), 1, 1)
    case Sending(second, _) => Within(c, Round(second), 1, 1)
    case WantInvalidate => Within(c, 1, 0, 0)
    case ClearingToken => Within(c, 1, 0, 0)
    case ClearingLease => Within(c, 1, 0, 0)
    case ReleasingCleared => Within(c, 1, 0, 0)
    case Returned(_) => Within(c, 2, 0, 0)
  }

  function Round(second: bool): nat {
    if second then 1 else 0
  }

  /** The finished rounds, and the logins and renewals of the current one. */
  ghost predicate Within(c: Caller, rounds: nat, logins: nat, renewals: nat) {
    c.attempts <= rounds && c.logins <= rounds + logins && c.renewals <= rounds + renewals
  }

  ghost predicate AllBounded(s: State) {
    forall t :: t in s.callers ==> Bounded(s.callers[t])
  }

  lemma StepBoundedInside(s: State, t: nat, c: Choice)
    requires t in s.callers && Bounded(s.callers[t]) && s.callers[t].place.Holds()
    ensures Bounded(Step(s, t, c).callers[t])
  {
    hide TrimSpace, TokenNeedsRefresh, NewTokenLease, IsUnauthorized;
  }

  lemma StepBoundedOutside(s: State, t: nat, c: Choice)
    requires t in s.callers && Bounded(s.callers[t]) && !s.callers[t].place.Holds()
    ensures Bounded(Step(s, t, c).callers[t])
  {
    hide TrimSpace, TokenNeedsRefresh, NewTokenLease, IsUnauthorized;
  }

  lemma StepKeepsBounded(s: State, t: nat, c: Choice)
    requires AllBounded(s) && t in s.callers
    ensures AllBounded(Step(s, t, c))
  {
    hide Step, Bounded;
    StepKeepsCallers(s, t, c);
    if s.callers[t].place.Holds() { StepBoundedInside(s, t, c); } else { StepBoundedOutside(s, t, c); }
  }

  lemma {:induction false} RunKeepsBounded(s: State, schedule: seq<(nat, Choice)>)
    requires AllBounded(s) && Runs(s, schedule)
    ensures AllBounded(Run(s, schedule))
    decreases |schedule|
  {
    hide Step, AllBounded;
    if schedule != [] {
      var t := schedule[0].0;
      StepKeepsCallers(s, t, schedule[0].1);
      StepKeepsBounded(s, t, schedule[0].1);
      RunKeepsBounded(Step(s, t, schedule[0].1), schedule[1..]);
    }
  }

  /**
   However the callers interleave, each call makes at most two attempts, two logins and two
   renewals; the second renewal is possible only because another caller stored a token meanwhile.
   */
  lemma EveryCallIsBounded(s: State, schedule: seq<(nat, Choice)>, t: nat)
    requires Initial(s) && Runs(s, schedule) && t in Run(s, schedule).callers
    requires !Run(s, schedule).callers[t].place.Idle?
    ensures var me := Run(s, schedule).callers[t]; me.attempts <= 2 && me.logins <= 2 && me.renewals <= 2
  {
    RunKeepsBounded(s, schedule);
    assert Bounded(Run(s, schedule).callers[t]);
  }

  // ---------------------------------------------------------------------------
  // One caller on its own
  // ---------------------------------------------------------------------------

  /** Caller `t` takes `n` steps with the same answers while the others stand still. */
  function Solo(s: State, t: nat, c: Choice, n: nat): (s': State)
    requires t in s.callers
    ensures t in s'.callers
    decreases n
  {
    if n == 0 then s
    else
      StepKeepsCallers(s, t, c);
      Solo(Step(s, t, c), t, c, n - 1)
  }

  /** The answers as one `ensureToken` sees them. */
  function EnsureAnswers(c: Choice): EnsureInput {
    var credential := if c.credentials then Value("x") else Unavailable;
    EnsureInput(c.now, c.renewal, c.now, credential, credential, credential, c.login, c.now)
  }

  lemma CredentialUsable()
    ensures TrimSpace("x") == "x"
  {
    assert TrimLeft("x") == "x" && TrimRight("x") == "x";
  }

  lemma {:induction false} SoloAdds(s: State, t: nat, c: Choice, m: nat, n: nat)
    requires t in s.callers
    ensures Solo(s, t, c, m + n) == Solo(Solo(s, t, c, m), t, c, n)
    decreases m
  {
    hide Step;
    if m > 0 {
      StepKeepsCallers(s, t, c);
      SoloAdds(Step(s, t, c), t, c, m - 1, n);
    }
  }

  lemma OneStep(s: State, t: nat, c: Choice)
    requires t in s.callers
    ensures Solo(s, t, c, 1) == Step(s, t, c)
  {
    hide Step;
    StepKeepsCallers(s, t, c);
    assert Solo(Step(s, t, c), t, c, 0) == Step(s, t, c);
  }

  lemma TwoMoreSteps(s: State, t: nat, c: Choice, n: nat)
    requires t in s.callers
    ensures var s1 := Step(s, t, c);
            t in s1.callers && t in Step(s1, t, c).callers && Solo(s, t, c, n + 2) == Solo(Step(s1, t, c), t, c, n)
  {
    hide Step;
    StepKeepsCallers(s, t, c);
    StepKeepsCallers(Step(s, t, c), t, c);
    assert Solo(s, t, c, n + 2) == Solo(Step(s, t, c), t, c, n + 1);
  }

  predicate Granted(c: Choice) {
    c.credentials && c.login.Some? && TrimSpace(c.login.value.clientToken) != ""
  }

  /** Where a caller is once it has released the mutex. */
  ghost predicate Released(s: State, t: nat, second: bool, cleared: nat, ok: bool, session: Session) {
    && t in s.callers && s.holder.None? && Session(s.token, s.lease) == session
    && s.callers[t].place == (if ok then WantToken(second, cleared) else Returned(false))
  }

  /** One step of `t` that leads to this place, token, lease and holder; nothing is invalidated. */
  ghost predicate Moves(s: State, t: nat, c: Choice, place: Place, token: string, lease: Lease, holder: Option<nat>)
    requires t in s.callers
  {
    var s' := Step(s, t, c);
    t in s'.callers && s'.callers[t].place == place && s'.token == token && s'.lease == lease && s'.holder == holder
    && s'.cleared == s.cleared
  }

  lemma AtLogin(s: State, t: nat, c: Choice)
    requires t in s.callers && s.callers[t].place.LoggingIn?
    ensures var second := s.callers[t].place.second;
            Moves(s, t, c,
                  if Granted(c) then StoringToken(second, c.login.value.clientToken, NewTokenLease(c.login.value, c.now)) else Releasing(second, false),
                  s.token, s.lease, s.holder)
  {
    hide NewTokenLease, TrimSpace;
  }

  lemma AtStoringToken(s: State, t: nat, c: Choice)
    requires t in s.callers && s.callers[t].place.StoringToken?
    ensures var place := s.callers[t].place; Moves(s, t, c, StoringLease(place.second, place.lease), place.token, s.lease, s.holder)
  {
  }

  lemma AtStoringLease(s: State, t: nat, c: Choice)
    requires t in s.callers && s.callers[t].place.StoringLease?
    ensures var place := s.callers[t].place; Moves(s, t, c, Releasing(place.second, true), s.token, place.lease, s.holder)
  {
  }

  lemma AtReleasing(s: State, t: nat, c: Choice)
    requires t in s.callers && s.callers[t].place.Releasing?
    ensures var place := s.callers[t].place;
            Moves(s, t, c, if place.ok then WantToken(place.second, s.cleared) else Returned(false), s.token, s.lease, None)
  {
  }

  lemma AtStart(s: State, t: nat, c: Choice)
    requires t in s.callers && s.callers[t].place.WantEnsure? && s.holder.None?
    ensures Moves(s, t, c, Checking(s.callers[t].place.second), s.token, s.lease, Some(t))
  {
  }

  lemma AtChecking(s: State, t: nat, c: Choice)
    requires t in s.callers && s.callers[t].place.Checking?
    ensures var second := s.callers[t].place.second;
            Moves(s, t, c,
                  if s.token != "" && !TokenNeedsRefresh(s.lease, c.now) then Releasing(second, true)
                  else if s.token != "" && s.lease.renewable then Renewing(second) else LoggingIn(second),
                  s.token, s.lease, s.holder)
  {
    hide TokenNeedsRefresh;
  }

  lemma AtRenewing(s: State, t: nat, c: Choice)
    requires t in s.callers && s.callers[t].place.Renewing?
    ensures var second := s.callers[t].place.second;
            Moves(s, t, c, if c.renewal.Some? then Releasing(second, true) else LoggingIn(second),
                  s.token, if c.renewal.Some? then NewTokenLease(c.renewal.value, c.now) else s.lease, s.holder)
  {
    hide NewTokenLease;
  }

  function LoginSteps(c: Choice): nat {
    if Granted(c) then 4 else 2
  }

  /** From the login to the release of the mutex. */
  lemma SoloLogin(s: State, t: nat, c: Choice)
    requires t in s.callers && s.callers[t].place.LoggingIn? && s.holder == Some(t)
    ensures var session := if Granted(c) then Session(c.login.value.clientToken, NewTokenLease(c.login.value, c.now))
                           else Session(s.token, s.lease);
            Released(Solo(s, t, c, LoginSteps(c)), t, s.callers[t].place.second, s.cleared, Granted(c), session)
  {
    hide Step, NewTokenLease, Granted, Solo;
    AtLogin(s, t, c);
    var s1 := Step(s, t, c);
    if Granted(c) {
      AtStoringToken(s1, t, c);
      var s2 := Step(s1, t, c);
      AtStoringLease(s2, t, c);
      var s3 := Step(s2, t, c);
      AtReleasing(s3, t, c);
      TwoMoreSteps(s, t, c, 2);
      TwoMoreSteps(s2, t, c, 0);
      SoloNone(Step(s3, t, c), t, c);
    } else {
      AtReleasing(s1, t, c);
      TwoMoreSteps(s, t, c, 0);
      SoloNone(Step(s1, t, c), t, c);
    }
  }

  /** How many steps the critical section takes. */
  function EnsureSteps(s: State, c: Choice): nat {
    if s.token != "" && !TokenNeedsRefresh(s.lease, c.now) then 3
    else if s.token != "" && s.lease.renewable then if c.renewal.Some? then 4 else 3 + LoginSteps(c)
    else 2 + LoginSteps(c)
  }

  /**
   The steps of one caller that is not interfered with are `ensureToken`: from the request for the
   mutex to its release they leave token and lease as the single-caller function does, and the
   caller goes on to read the token exactly when that succeeds.
   */
  lemma SoloIsEnsure(s: State, t: nat, c: Choice, auth: AuthMethod)
    requires t in s.callers && s.callers[t].place.WantEnsure? && s.holder.None? && auth.UsesDynamicAuth()
    ensures var r := Ensure(auth, Session(s.token, s.lease), EnsureAnswers(c));
            Released(Solo(s, t, c, EnsureSteps(s, c)), t, s.callers[t].place.second, s.cleared, r.ok, r.session)
  {
    hide Step, TokenNeedsRefresh, NewTokenLease, Solo, Released, TrimLeft, TrimRight;
    CredentialUsable();
    EnsureOutcome(auth, Session(s.token, s.lease), EnsureAnswers(c));
    var n := EnsureSteps(s, c);
    TwoMoreSteps(s, t, c, n - 2);
    var s2 := Step(Step(s, t, c), t, c);
    SoloAfterCheck(s, s2, t, c);
  }

  /** The state after the mutex was taken and the stored token looked at. */
  lemma SoloAfterCheck(s: State, s2: State, t: nat, c: Choice)
    requires t in s.callers && s.callers[t].place.WantEnsure? && s.holder.None? && s2 == Step(Step(s, t, c), t, c)
    requires t in s2.callers
    ensures var second := s.callers[t].place.second;
            var held := Session(s.token, s.lease);
            var rest := Solo(s2, t, c, EnsureSteps(s, c) - 2);
            if s.token != "" && !TokenNeedsRefresh(s.lease, c.now) then Released(rest, t, second, s.cleared, true, held)
            else if s.token != "" && s.lease.renewable && c.renewal.Some? then
              Released(rest, t, second, s.cleared, true, Session(s.token, NewTokenLease(c.renewal.value, c.now)))
            else
              Released(rest, t, second, s.cleared, Granted(c),
                       if Granted(c) then Session(c.login.value.clientToken, NewTokenLease(c.login.value, c.now)) else held)
  {
    hide Step, TokenNeedsRefresh, NewTokenLease, Solo, Granted;
    AtStart(s, t, c);
    AtChecking(Step(s, t, c), t, c);
    if s.token != "" && !TokenNeedsRefresh(s.lease, c.now) {
      AtReleasing(s2, t, c);
      OneStep(s2, t, c);
    } else if s.token != "" && s.lease.renewable {
      AtRenewing(s2, t, c);
      if c.renewal.Some? {
        AtReleasing(Step(s2, t, c), t, c);
        TwoMoreSteps(s2, t, c, 0);
        SoloNone(Step(Step(s2, t, c), t, c), t, c);
      } else {
        SoloAdds(s2, t, c, 1, LoginSteps(c));
        OneStep(s2, t, c);
        SoloLogin(Step(s2, t, c), t, c);
      }
    } else {
      SoloLogin(s2, t, c);
    }
  }

  lemma SoloNone(s: State, t: nat, c: Choice)
    requires t in s.callers
    ensures Solo(s, t, c, 0) == s
  {
  }

  /** The request carries the token found in the client, and only a first 401 or 403 leads on to invalidation. */
  lemma SoloSends(s: State, t: nat, c: Choice)
    requires t in s.callers && s.callers[t].place.WantToken? && s.holder.None?
    ensures var second := s.callers[t].place.second;
            var s1 := Step(s, t, c);
            && t in s1.callers && s1.callers[t].place == Sending(second, s.token)
            && var s2 := Step(s1, t, c);
               && t in s2.callers && s2.token == s.token && s2.lease == s.lease
               && s2.callers[t].attempts == s.callers[t].attempts + 1
               && s2.callers[t].place == (if !second && (c.reply == Status(401) || c.reply == Status(403)) then WantInvalidate
                                          else Returned(c.reply.Success?))
  {
  }

  /** Invalidation empties token and lease under the mutex and starts over, as the second round. */
  lemma SoloInvalidates(s: State, t: nat, c: Choice)
    requires t in s.callers && s.callers[t].place.WantInvalidate? && s.holder.None?
    ensures var s' := Solo(s, t, c, 4);
            && s'.token == "" && s'.lease == Lease(0, 0, false) && s'.holder.None? && s'.cleared == s.cleared + 1
            && s'.callers[t].place == WantEnsure(true)
  {
    TwoMoreSteps(s, t, c, 2);
    TwoMoreSteps(Step(Step(s, t, c), t, c), t, c, 0);
  }

  // ---------------------------------------------------------------------------
  // A request can go out without a token
  // ---------------------------------------------------------------------------

  const ANSWERS := Choice(1, None, true, Some(TokenAuth("s.1", 0, false)), Status(403))

  /** A new client shared by two callers. */
  const NEW_CLIENT := State("", ZERO_LEASE, None, map[0 := Caller(Idle, 0, 0, 0), 1 := Caller(Idle, 0, 0, 0)], {}, 0, None)

  ghost predicate Reachable(s: State) {
    exists schedule :: Runs(NEW_CLIENT, schedule) && Run(NEW_CLIENT, schedule) == s
  }

  lemma {:induction false} RunSnoc(s: State, a: seq<(nat, Choice)>, t: nat, c: Choice)
    requires Runs(s, a) && t in s.callers
    ensures t in Run(s, a).callers
    ensures Runs(s, a + [(t, c)]) && Run(s, a + [(t, c)]) == Step(Run(s, a), t, c)
    decreases |a|
  {
    if a == [] {
      assert a + [(t, c)] == [(t, c)];
      assert Run(Step(s, t, c), [(t, c)][1..]) == Step(s, t, c);
    } else {
      StepKeepsCallers(s, a[0].0, a[0].1);
      RunSnoc(Step(s, a[0].0, a[0].1), a[1..], t, c);
      assert (a + [(t, c)])[1..] == a[1..] + [(t, c)];
    }
  }

  /** A reachable state with caller 0 at `p` and caller 1 at `q`. */
  ghost predicate At(s: State, p: Place, q: Place, token: string, holder: Option<nat>) {
    && Reachable(s) && 0 in s.callers && 1 in s.callers
    && s.callers[0].place == p && s.callers[1].place == q
    && s.token == token && s.lease == ZERO_LEASE && s.holder == holder
  }

  lemma Next(s: State, t: nat) returns (s': State)
    requires Reachable(s) && (t == 0 || t == 1) && t in s.callers
    ensures s' == Step(s, t, ANSWERS) && Reachable(s')
  {
    hide Step;
    var schedule :| Runs(NEW_CLIENT, schedule) && Run(NEW_CLIENT, schedule) == s;
    RunSnoc(NEW_CLIENT, schedule, t, ANSWERS);
    s' := Step(s, t, ANSWERS);
  }

  lemma SampleTokenIsTrimmed()
    ensures TrimSpace("s.1") == "s.1"
  {
    assert TrimLeft("s.1") == "s.1" && TrimRight("s.1") == "s.1";
  }

  /** Caller 0 logs in and is rejected. */
  lemma FirstCallerRejected() returns (s: State)
    ensures At(s, WantInvalidate, Idle, "s.1", None)
  {
    hide Reachable, Run, Runs, TrimLeft, TrimRight;
    SampleTokenIsTrimmed();
    s := NEW_CLIENT;
    assert At(s, Idle, Idle, "", None) by { NewClientReachable(); }
    s := Next(s, 0);
    s := Next(s, 0);
    s := Next(s, 0);
    assert At(s, LoggingIn(false), Idle, "", Some(0));
    s := Next(s, 0);
    s := Next(s, 0);
    s := Next(s, 0);
    assert At(s, Releasing(false, true), Idle, "s.1", Some(0));
    s := Next(s, 0);
    s := Next(s, 0);
    s := Next(s, 0);
  }

  lemma NewClientReachable()
    ensures Reachable(NEW_CLIENT)
  {
    assert Run(NEW_CLIENT, []) == NEW_CLIENT;
  }

  /** Then caller 1 checks the token and releases the mutex. */
  lemma SecondCallerChecked() returns (s: State)
    ensures 1 in s.callers && s.callers[1].place.WantToken? && At(s, WantInvalidate, s.callers[1].place, "s.1", None)
    ensures !s.callers[1].place.second
  {
    hide Reachable, Run, Runs, TrimSpace;
    s := FirstCallerRejected();
    s := Next(s, 1);
    s := Next(s, 1);
    s := Next(s, 1);
    s := Next(s, 1);
  }

  /**
   Two callers are enough: caller 0 is rejected, caller 1 checks the token and releases the mutex,
   caller 0 clears the token, and caller 1 reads and sends an empty one.
   */
  lemma RequestWithoutTokenIsPossible()
    ensures exists s :: Reachable(s) && 1 in s.callers && s.callers[1].place == Sending(false, "")
  {
    hide Reachable, Run, Runs, TrimSpace;
    var s := SecondCallerChecked();
    s := Next(s, 0);
    s := Next(s, 0);
    s := Next(s, 0);
    s := Next(s, 0);
    assert At(s, WantEnsure(true), s.callers[1].place, "", None);
    s := Next(s, 1);
    assert s.callers[1].place == Sending(false, "");
  }
}
