/**
 What the three role controllers share: optional fields, fields the encoder omits, whole-second
 durations, and the count of writes over repeated drift passes.
 */
module RoleValues {
  import opened Kube
  import opened StringLists

  /** A server keeps the stored value of a field the request leaves out. */
  function Kept<T>(sent: Option<T>, stored: Option<T>): Option<T> {
    if sent.None? then stored else sent
  }

  /** A list or text with `omitempty` is left out of the request when it is empty. */
  function KeptSeq<T>(sent: seq<T>, stored: seq<T>): seq<T> {
    if |sent| == 0 then stored else sent
  }

  /** `optionalIntMatches` and `optionalBoolMatches`. */
  predicate OptionalMatches<T(==)>(desired: Option<T>, observed: Option<T>) {
    desired.None? || (observed.Some? && desired.value == observed.value)
  }

  /** `optionalStringSliceMatches`, and the same rule for texts. */
  predicate SeqMatches<T(==)>(desired: seq<T>, observed: seq<T>) {
    |desired| == 0 || desired == observed
  }

  /** No value of the list trims to nothing. */
  predicate NoBlank(values: seq<string>) {
    forall v :: v in values ==> TrimSpace(v) != ""
  }

  /** A duration the controllers accept: absent, or a whole number of seconds, not negative. */
  ghost predicate WholeSeconds(d: Option<int>) {
    d.None? || (d.value >= 0 && exists n: nat :: d.value == n * SECOND)
  }

  /** `durationSeconds`: refused when negative or fractional, otherwise exactly the number of seconds. */
  method DurationSeconds(d: Option<int>) returns (ok: bool, seconds: int)
    ensures ok <==> WholeSeconds(d)
    ensures ok ==> seconds * SECOND == if d.None? then 0 else d.value
    ensures !ok ==> seconds == 0
  {
    if d.None? || d.value == 0 {
      assert d.Some? ==> d.value == 0 * SECOND;
      return true, 0;
    }
    if d.value < 0 { return false, 0; }
    if d.value % SECOND != 0 {
      forall n: nat | d.value == n * SECOND ensures false { Multiple(n); }
      return false, 0;
    }
    seconds := d.value / SECOND;
    assert d.value == seconds * SECOND;
    ok := true;
  }

  lemma Multiple(n: nat)
    ensures n * SECOND % SECOND == 0 && n * SECOND / SECOND == n
  {
  }

  /** `optionalDurationSeconds`: an absent duration stays absent, a zero one is sent. */
  function SecondsOf(d: Option<int>): Option<int> {
    if d.None? then None else Some(d.value / SECOND)
  }

  method OptionalDurationSeconds(d: Option<int>) returns (ok: bool, seconds: Option<int>)
    ensures ok <==> WholeSeconds(d)
    ensures ok ==> seconds == SecondsOf(d)
    ensures ok && d.Some? ==> seconds.Some? && seconds.value * SECOND == d.value
  {
    if d.None? { return true, None; }
    var n;
    ok, n := DurationSeconds(d);
    seconds := if ok then Some(n) else None;
    if ok { assert d.value / SECOND == n by { if d.value != 0 { Multiple(n); } } }
  }

  // ---------------------------------------------------------------------------
  // Fields, one by one
  // ---------------------------------------------------------------------------

  /** The list sent holds exactly the trimmed values of the list specified, each once, ascending. */
  ghost predicate SentList(specified: seq<string>, sent: seq<string>) {
    Ascending(sent) && forall x :: x in sent <==> exists v :: v in specified && x == TrimSpace(v)
  }

  /** The seconds sent are the nanoseconds specified; an absent duration is not sent. */
  predicate SentSeconds(specified: Option<int>, sent: Option<int>) {
    (specified.None? <==> sent.None?) && (sent.Some? ==> sent.value * 1_000_000_000 == specified.value)
  }

  /** The server has the value specified, if one is. */
  predicate HasValue<T(==)>(specified: Option<T>, stored: Option<T>) {
    specified.None? || stored == specified
  }

  predicate HasSeconds(specified: Option<int>, stored: Option<int>) {
    specified.None? || (stored.Some? && stored.value * 1_000_000_000 == specified.value)
  }

  predicate HasText(specified: string, stored: string) {
    TrimSpace(specified) == "" || stored == TrimSpace(specified)
  }

  /** The server has the values specified, if any are. */
  ghost predicate HasList(specified: seq<string>, stored: seq<string>) {
    specified == [] || SameTrimmed(specified, stored)
  }

  lemma SentListHolds(specified: seq<string>)
    ensures SentList(specified, NormalizeTrimmed(specified))
  {
    NormalizeTrimmedCanonical(specified);
  }

  lemma SentSecondsHold(specified: Option<int>)
    requires WholeSeconds(specified)
    ensures SentSeconds(specified, SecondsOf(specified))
    ensures forall stored :: OptionalMatches(SecondsOf(specified), stored) <==> HasSeconds(specified, stored)
  {
    if specified.Some? {
      var n: nat :| specified.value == n * SECOND;
      Multiple(n);
    }
  }

  /** A list left out when empty matches exactly when the server has the values specified. */
  lemma ListMatches(specified: seq<string>, stored: seq<string>)
    ensures SeqMatches(NormalizeTrimmed(specified), NormalizeTrimmed(stored)) <==> HasList(specified, stored)
  {
    hide NormalizeTrimmed, SameTrimmed;
    NormalizeTrimmedCanonical(specified);
    NormalizeTrimmedDecides(specified, stored);
  }

  // ---------------------------------------------------------------------------
  // Repeated passes
  // ---------------------------------------------------------------------------

  /** A role controller on its server: the role a server starts from, one write, and the matcher. */
  datatype Plan<!R> = Plan(defaults: R, write: R -> R, matches: R -> bool)

  /** One undisturbed pass: an absent role is created, then a differing one is written; writes are counted. */
  function Pass<R>(p: Plan<R>, remote: Option<R>): (R, nat) {
    var (observed, created) := if remote.None? then (p.write(p.defaults), 1) else (remote.value, 0);
    if p.matches(observed) then (observed, created) else (p.write(observed), created + 1)
  }

  function Passes<R>(p: Plan<R>, remote: Option<R>, n: nat): (Option<R>, nat)
    decreases n
  {
    if n == 0 then (remote, 0)
    else
      var first := Pass(p, remote);
      var rest := Passes(p, Some(first.0), n - 1);
      (rest.0, first.1 + rest.1)
  }

  ghost predicate WriteIsIdempotent<R(!new)>(p: Plan<R>) {
    forall r: R :: p.write(p.write(r)) == p.write(r)
  }

  /**
   How often a role is written, for a server on which writing twice is writing once: never if it
   matches, once if the written role matches, and in every single pass otherwise.
   */
  lemma {:induction false} WritesOverPasses<R(!new)>(p: Plan<R>, remote: R, n: nat)
    requires WriteIsIdempotent(p)
    ensures Passes(p, Some(remote), n).1 ==
            if p.matches(remote) || n == 0 then 0 else if p.matches(p.write(remote)) then 1 else n
    ensures Passes(p, Some(remote), n).0 == Some(if p.matches(remote) || n == 0 then remote else p.write(remote))
  {
    if n > 0 {
      WritesOverPasses(p, Pass(p, Some(remote)).0, n - 1);
    }
  }

  /** Starting from an absent role: one write creates it, and the rest is as above. */
  lemma {:induction false} WritesFromAbsent<R(!new)>(p: Plan<R>, n: nat)
    requires WriteIsIdempotent(p) && n > 0
    ensures Passes(p, None, n) ==
            (Some(p.write(p.defaults)), if p.matches(p.write(p.defaults)) then 1 else n + 1)
  {
    WritesOverPasses(p, p.write(p.defaults), n - 1);
  }
}
