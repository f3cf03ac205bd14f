/** Lease arithmetic in int64 nanoseconds, as `time.Duration` and `time.Time` do it. */
module TokenLease {
  import opened Kube

  const MINUTE: int := 60_000_000_000
  const MAX_INT64: int := 0x7FFF_FFFF_FFFF_FFFF
  const MIN_INT64: int := -0x8000_0000_0000_0000
  /** The longest lease, in seconds, whose nanoseconds fit an int64. */
  const MAX_LEASE_SECONDS: int := 9_223_372_036

  /** The nanosecond reading of `time.Time{}`; `IsZero` tests for it. */
  const ZERO_TIME: int := 0

  /** Two's complement wrap-around of an int64 result. */
  function Wrap64(x: int): int {
    var m := x % 0x1_0000_0000_0000_0000;
    if m > MAX_INT64 then m - 0x1_0000_0000_0000_0000 else m
  }

  lemma Wrap64Range(x: int)
    ensures MIN_INT64 <= Wrap64(x) <= MAX_INT64
  {
  }

  /** `Time.Sub` saturates at the int64 range. */
  function Saturate64(x: int): int {
    if x > MAX_INT64 then MAX_INT64 else if x < MIN_INT64 then MIN_INT64 else x
  }

  /** Go's integer division by three, which truncates toward zero. */
  function Third(d: int): int {
    if d >= 0 then d / 3 else -((-d) / 3)
  }

  datatype Lease = Lease(expiresAt: int, duration: int, renewable: bool)

  const ZERO_LEASE := Lease(ZERO_TIME, 0, false)

  /** The `auth` block of a login or renewal reply. */
  datatype TokenAuth = TokenAuth(clientToken: string, leaseDuration: int, renewable: bool)

  function NewTokenLease(auth: TokenAuth, now: int): Lease {
    if auth.leaseDuration > 0 then
      var d := Wrap64(auth.leaseDuration * SECOND);
      Lease(now + d, d, auth.renewable)
    else
      Lease(ZERO_TIME, 0, auth.renewable)
  }

  function RefreshBefore(lease: Lease): int {
    if Third(lease.duration) < MINUTE then Third(lease.duration) else MINUTE
  }

  predicate TokenNeedsRefresh(lease: Lease, now: int) {
    if lease.expiresAt == ZERO_TIME then false
    else if !lease.renewable then now >= lease.expiresAt
    else Saturate64(lease.expiresAt - now) <= RefreshBefore(lease)
  }

  /** A clock reading from the present era: more than 2^63 nanoseconds after the zero time. */
  predicate ClockReading(now: int) {
    now > -MIN_INT64
  }

  /** The multiplication by `time.Second` overflows to a duration that is not positive. */
  predicate Overflows(auth: TokenAuth) {
    auth.leaseDuration > 0 && Wrap64(auth.leaseDuration * SECOND) <= 0
  }

  /** A lease just issued asks for refresh at once exactly when its duration overflowed. */
  lemma FreshLeaseNeedsRefreshIff(auth: TokenAuth, now: int)
    requires ClockReading(now)
    ensures TokenNeedsRefresh(NewTokenLease(auth, now), now) <==> Overflows(auth)
  {
    if auth.leaseDuration > 0 {
      var d := Wrap64(auth.leaseDuration * SECOND);
      Wrap64Range(auth.leaseDuration * SECOND);
      assert now + d != ZERO_TIME;
    }
  }

  lemma InRangeDoesNotOverflow(auth: TokenAuth)
    requires auth.leaseDuration <= MAX_LEASE_SECONDS
    ensures !Overflows(auth)
    ensures auth.leaseDuration > 0 ==> Wrap64(auth.leaseDuration * SECOND) == auth.leaseDuration * SECOND
  {
    if auth.leaseDuration > 0 {
      assert 0 < auth.leaseDuration * SECOND <= MAX_INT64;
    }
  }

  /** One second beyond the range the fresh lease is already expired. */
  lemma OverflowExample(now: int)
    requires ClockReading(now)
    ensures TokenNeedsRefresh(NewTokenLease(TokenAuth("t", MAX_LEASE_SECONDS + 1, true), now), now)
    ensures NewTokenLease(TokenAuth("t", MAX_LEASE_SECONDS + 1, true), now).expiresAt < now
  {
    assert (MAX_LEASE_SECONDS + 1) * SECOND == 9_223_372_037_000_000_000;
    FreshLeaseNeedsRefreshIff(TokenAuth("t", MAX_LEASE_SECONDS + 1, true), now);
  }

  /**
   When a renewable lease asks for refresh: from one threshold on and never before it. The
   threshold lies a third of the lease before expiry, or a minute if that is less; so it is no
   earlier than two thirds into the lease and strictly before expiry.
   */
  lemma RenewableRefreshWindow(auth: TokenAuth, issued: int, t: int)
    requires ClockReading(issued) && issued <= t
    requires auth.renewable && 0 < auth.leaseDuration <= MAX_LEASE_SECONDS
    ensures var lease := NewTokenLease(auth, issued);
            var third := auth.leaseDuration * 1_000_000_000 / 3;
            var threshold := lease.expiresAt - if third < 60_000_000_000 then third else 60_000_000_000;
            && lease.expiresAt == issued + auth.leaseDuration * 1_000_000_000
            && (TokenNeedsRefresh(lease, t) <==> t >= threshold)
            && 3 * (threshold - issued) >= 2 * (lease.expiresAt - issued)
            && lease.expiresAt - MINUTE <= threshold < lease.expiresAt
  {
    InRangeDoesNotOverflow(auth);
    var d := auth.leaseDuration * SECOND;
    assert SECOND <= d <= MAX_INT64;
    assert 3 * (d / 3) <= d && d / 3 >= 1;
  }

  /** A token granted without a duration never asks, and neither does a token without a lease. */
  lemma NoExpiryNeverRefreshes(auth: TokenAuth, issued: int, t: int)
    requires auth.leaseDuration <= 0
    ensures !TokenNeedsRefresh(NewTokenLease(auth, issued), t)
    ensures NewTokenLease(auth, issued).renewable == auth.renewable
    ensures !TokenNeedsRefresh(ZERO_LEASE, t)
  {
  }

  /** A lease that cannot be renewed asks for a new login exactly from its expiry on. */
  lemma FixedLeaseExpires(auth: TokenAuth, issued: int, t: int)
    requires ClockReading(issued) && !auth.renewable && 0 < auth.leaseDuration <= MAX_LEASE_SECONDS
    ensures TokenNeedsRefresh(NewTokenLease(auth, issued), t) <==> t >= issued + auth.leaseDuration * 1_000_000_000
  {
    InRangeDoesNotOverflow(auth);
  }
}
