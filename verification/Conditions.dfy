/** The condition list of a resource status and the marks the controllers put on it. */
module Conditions {
  import opened Kube

  datatype CondStatus = True | False | Unknown

  datatype Condition = Condition(
    typ: string, status: CondStatus, reason: string, message: string, generation: int, transition: int)

  const READY := "Ready"
  const STALLED := "Stalled"
  const CLEANUP := "CleanupRequired"

  /** Equal up to the transition time: the comparison that suppresses a rewrite. */
  predicate SameReport(a: Condition, b: Condition) {
    a.(transition := 0) == b.(transition := 0)
  }

  /** Replace the first condition of the same type unless it already says the same; else append. */
  function SetCondition(cs: seq<Condition>, c: Condition): seq<Condition> {
    if cs == [] then [c]
    else if cs[0].typ != c.typ then [cs[0]] + SetCondition(cs[1..], c)
    else if SameReport(cs[0], c) then cs
    else [c] + cs[1..]
  }

  /** `meta.FindStatusCondition`. */
  function Find(cs: seq<Condition>, typ: string): Option<Condition> {
    if cs == [] then None else if cs[0].typ == typ then Some(cs[0]) else Find(cs[1..], typ)
  }

  /** `meta.IsStatusConditionTrue`. */
  predicate IsTrue(cs: seq<Condition>, typ: string) {
    var c := Find(cs, typ);
    c.Some? && c.value.status == True
  }

  /** One call of a `mark*` function, with the clock readings it takes. */
  datatype Mark =
    | Ready(generation: int, note: string, t1: int, t2: int)
    | Error(generation: int, reason: string, err: Option<string>, t1: int)
    | Stalled(generation: int, reason: string, err: Option<string>, t1: int, t2: int)
    | CleanupFailure(generation: int, reason: string, cause: string, t1: int, t2: int, t3: int)

  function ReadyCondition(generation: int, note: string, t: int): Condition {
    Condition(READY, True, "Reconciled", note, generation, t)
  }

  function NotStalledCondition(generation: int, t: int): Condition {
    Condition(STALLED, False, "NotStalled", "The resource is not stalled", generation, t)
  }

  function ErrorCondition(generation: int, reason: string, err: Option<string>, t: int): Condition {
    Condition(READY, False, reason, if err.Some? then err.value else "OpenBao reconciliation failed", generation, t)
  }

  function StalledCondition(generation: int, reason: string, err: Option<string>, t: int): Condition {
    Condition(STALLED, True, reason,
              if err.Some? then err.value
              else "The resource is blocked until its dependencies or configuration are fixed",
              generation, t)
  }

  function CleanupCondition(generation: int, reason: string, cause: string, t: int): Condition {
    Condition(CLEANUP, True, reason, cause, generation, t)
  }

  /** The list after a mark. */
  function Apply(cs: seq<Condition>, m: Mark): seq<Condition> {
    match m
    case Ready(g, note, t1, t2) => SetCondition(SetCondition(cs, ReadyCondition(g, note, t1)), NotStalledCondition(g, t2))
    case Error(g, reason, err, t1) => SetCondition(cs, ErrorCondition(g, reason, err, t1))
    case Stalled(g, reason, err, t1, t2) =>
      SetCondition(SetCondition(cs, ErrorCondition(g, reason, err, t1)), StalledCondition(g, reason, err, t2))
    case CleanupFailure(g, reason, cause, t1, t2, t3) =>
      SetCondition(SetCondition(SetCondition(cs, ErrorCondition(g, reason, Some(cause), t1)),
                                StalledCondition(g, reason, Some(cause), t2)),
                   CleanupCondition(g, reason, cause, t3))
  }

  function ApplyAll(cs: seq<Condition>, marks: seq<Mark>): seq<Condition>
    decreases |marks|
  {
    if marks == [] then cs else ApplyAll(Apply(cs, marks[0]), marks[1..])
  }

  // ---------------------------------------------------------------------------
  // What every run of marks keeps
  // ---------------------------------------------------------------------------

  predicate OperatorType(typ: string) {
    typ == READY || typ == STALLED || typ == CLEANUP
  }

  ghost predicate UniqueTypes(cs: seq<Condition>) {
    forall i, j :: 0 <= i < j < |cs| ==> cs[i].typ != cs[j].typ
  }

  ghost predicate NeverReadyAndStalled(cs: seq<Condition>) {
    !(IsTrue(cs, READY) && IsTrue(cs, STALLED))
  }

  /** `after` keeps the order of `before`, touches only the operator's types, and appends only those. */
  ghost predicate Frames(before: seq<Condition>, after: seq<Condition>) {
    && |before| <= |after|
    && (forall i :: 0 <= i < |before| ==> after[i].typ == before[i].typ)
    && (forall i :: 0 <= i < |before| && !OperatorType(before[i].typ) ==> after[i] == before[i])
    && (forall i :: |before| <= i < |after| ==> OperatorType(after[i].typ))
  }

  /** Setting answers the next lookup of that type and no other lookup. */
  lemma {:induction false} SetThenFind(cs: seq<Condition>, c: Condition, typ: string)
    ensures typ != c.typ ==> Find(SetCondition(cs, c), typ) == Find(cs, typ)
    ensures AlreadySays(SetCondition(cs, c), c)
  {
    if cs != [] && cs[0].typ != c.typ {
      SetThenFind(cs[1..], c, typ);
    }
  }

  /** Where the entry of the type is, or the end of the list: the only position a set changes. */
  function Position(cs: seq<Condition>, typ: string): (k: nat)
    ensures k <= |cs|
    ensures forall i :: 0 <= i < k ==> cs[i].typ != typ
    ensures k < |cs| ==> cs[k].typ == typ
  {
    if cs == [] || cs[0].typ == typ then 0 else 1 + Position(cs[1..], typ)
  }

  lemma {:induction false} SetAtPosition(cs: seq<Condition>, c: Condition)
    ensures var k := Position(cs, c.typ);
            SetCondition(cs, c) ==
            if k == |cs| then cs + [c] else if SameReport(cs[k], c) then cs else cs[k := c]
  {
    if cs != [] && cs[0].typ != c.typ {
      SetAtPosition(cs[1..], c);
      assert cs == [cs[0]] + cs[1..];
    }
  }

  lemma SetKeepsShape(cs: seq<Condition>, c: Condition)
    ensures OperatorType(c.typ) ==> Frames(cs, SetCondition(cs, c))
    ensures UniqueTypes(cs) ==> UniqueTypes(SetCondition(cs, c))
  {
    SetAtPosition(cs, c);
  }

  lemma FindAfterSet(cs: seq<Condition>, c: Condition)
    ensures forall typ :: typ != c.typ ==> Find(SetCondition(cs, c), typ) == Find(cs, typ)
    ensures AlreadySays(SetCondition(cs, c), c)
  {
    forall typ ensures typ != c.typ ==> Find(SetCondition(cs, c), typ) == Find(cs, typ) {
      SetThenFind(cs, c, typ);
    }
    SetThenFind(cs, c, c.typ);
  }

  /** Setting a condition decides its own type and no other. */
  lemma SetThenTrue(cs: seq<Condition>, c: Condition)
    ensures forall typ :: IsTrue(SetCondition(cs, c), typ) <==> if typ == c.typ then c.status == True else IsTrue(cs, typ)
  {
    FindAfterSet(cs, c);
  }

  /** What each mark makes of the three conditions, as a function of what they were. */
  lemma ApplyThenFind(cs: seq<Condition>, m: Mark)
    ensures IsTrue(Apply(cs, m), READY) <==> m.Ready?
    ensures IsTrue(Apply(cs, m), STALLED) <==>
            m.Stalled? || m.CleanupFailure? || (m.Error? && IsTrue(cs, STALLED))
    ensures IsTrue(Apply(cs, m), CLEANUP) <==> m.CleanupFailure? || IsTrue(cs, CLEANUP)
    decreases m.CleanupFailure?
  {
    hide SetCondition, IsTrue;
    match m
    case Ready(g, note, t1, t2) =>
      SetThenTrue(cs, ReadyCondition(g, note, t1));
      SetThenTrue(SetCondition(cs, ReadyCondition(g, note, t1)), NotStalledCondition(g, t2));
    case Error(g, reason, err, t1) =>
      SetThenTrue(cs, ErrorCondition(g, reason, err, t1));
    case Stalled(g, reason, err, t1, t2) =>
      SetThenTrue(cs, ErrorCondition(g, reason, err, t1));
      SetThenTrue(SetCondition(cs, ErrorCondition(g, reason, err, t1)), StalledCondition(g, reason, err, t2));
    case CleanupFailure(g, reason, cause, t1, t2, t3) =>
      var stalled := Apply(cs, Stalled(g, reason, Some(cause), t1, t2));
      ApplyThenFind(cs, Stalled(g, reason, Some(cause), t1, t2));
      SetThenTrue(stalled, CleanupCondition(g, reason, cause, t3));
  }

  /** The list has a condition of this type with exactly this report. */
  ghost predicate Reports(cs: seq<Condition>, typ: string, status: CondStatus, reason: string, note: string, generation: int) {
    Find(cs, typ).Some? && Find(cs, typ).value == Condition(typ, status, reason, note, generation, Find(cs, typ).value.transition)
  }

  lemma SetThenReports(cs: seq<Condition>, c: Condition)
    ensures Reports(SetCondition(cs, c), c.typ, c.status, c.reason, c.message, c.generation)
    ensures forall typ, status, reason, note, g :: typ != c.typ ==>
              (Reports(SetCondition(cs, c), typ, status, reason, note, g) <==> Reports(cs, typ, status, reason, note, g))
  {
    FindAfterSet(cs, c);
  }

  /** What each mark says afterwards: status, reason, message and generation of every condition it sets. */
  lemma MarkReports(cs: seq<Condition>, m: Mark)
    ensures m.Ready? ==>
              && Reports(Apply(cs, m), "Ready", True, "Reconciled", m.note, m.generation)
              && Reports(Apply(cs, m), "Stalled", False, "NotStalled", "The resource is not stalled", m.generation)
    ensures m.Error? ==>
              Reports(Apply(cs, m), "Ready", False, m.reason,
                      if m.err.Some? then m.err.value else "OpenBao reconciliation failed", m.generation)
    ensures m.Stalled? ==>
              && Reports(Apply(cs, m), "Ready", False, m.reason,
                         if m.err.Some? then m.err.value else "OpenBao reconciliation failed", m.generation)
              && Reports(Apply(cs, m), "Stalled", True, m.reason,
                         if m.err.Some? then m.err.value
                         else "The resource is blocked until its dependencies or configuration are fixed", m.generation)
    ensures m.CleanupFailure? ==>
              && Reports(Apply(cs, m), "Ready", False, m.reason, m.cause, m.generation)
              && Reports(Apply(cs, m), "Stalled", True, m.reason, m.cause, m.generation)
              && Reports(Apply(cs, m), "CleanupRequired", True, m.reason, m.cause, m.generation)
    decreases m.CleanupFailure?
  {
    hide SetCondition, Reports;
    match m
    case Ready(g, note, t1, t2) =>
      SetThenReports(cs, ReadyCondition(g, note, t1));
      SetThenReports(SetCondition(cs, ReadyCondition(g, note, t1)), NotStalledCondition(g, t2));
    case Error(g, reason, err, t1) =>
      SetThenReports(cs, ErrorCondition(g, reason, err, t1));
    case Stalled(g, reason, err, t1, t2) =>
      SetThenReports(cs, ErrorCondition(g, reason, err, t1));
      SetThenReports(SetCondition(cs, ErrorCondition(g, reason, err, t1)), StalledCondition(g, reason, err, t2));
    case CleanupFailure(g, reason, cause, t1, t2, t3) =>
      MarkReports(cs, Stalled(g, reason, Some(cause), t1, t2));
      SetThenReports(Apply(cs, Stalled(g, reason, Some(cause), t1, t2)), CleanupCondition(g, reason, cause, t3));
  }

  /** The list says what an error or a stall with this cause says. */
  ghost predicate MarkedWith(cs: seq<Condition>, m: Mark) {
    && (m.Error? && m.err.Some? ==> Reports(cs, "Ready", False, m.reason, m.err.value, m.generation))
    && (m.Stalled? && m.err.Some? ==>
          && Reports(cs, "Ready", False, m.reason, m.err.value, m.generation)
          && Reports(cs, "Stalled", True, m.reason, m.err.value, m.generation))
  }

  lemma MarkedByApply(cs: seq<Condition>, m: Mark)
    ensures MarkedWith(Apply(cs, m), m)
  {
    hide Apply, Reports;
    MarkReports(cs, m);
  }

  lemma ApplyKeepsShape(cs: seq<Condition>, m: Mark)
    ensures Frames(cs, Apply(cs, m))
    ensures UniqueTypes(cs) ==> UniqueTypes(Apply(cs, m))
    decreases m.CleanupFailure?
  {
    match m
    case Ready(g, note, t1, t2) =>
      SetKeepsShape(cs, ReadyCondition(g, note, t1));
      SetKeepsShape(SetCondition(cs, ReadyCondition(g, note, t1)), NotStalledCondition(g, t2));
    case Error(g, reason, err, t1) =>
      SetKeepsShape(cs, ErrorCondition(g, reason, err, t1));
    case Stalled(g, reason, err, t1, t2) =>
      SetKeepsShape(cs, ErrorCondition(g, reason, err, t1));
      SetKeepsShape(SetCondition(cs, ErrorCondition(g, reason, err, t1)), StalledCondition(g, reason, err, t2));
    case CleanupFailure(g, reason, cause, t1, t2, t3) =>
      ApplyKeepsShape(cs, Stalled(g, reason, Some(cause), t1, t2));
      SetKeepsShape(Apply(cs, Stalled(g, reason, Some(cause), t1, t2)), CleanupCondition(g, reason, cause, t3));
  }

  /**
   Over every sequence of marks: types stay unique, foreign conditions and the order of the list
   are untouched, Ready=True never coexists with Stalled=True, and CleanupRequired is True exactly
   if it was at the start or some mark recorded a cleanup failure: no mark takes it down again.
   */
  lemma {:induction false} EveryRunOfMarks(cs: seq<Condition>, marks: seq<Mark>)
    requires UniqueTypes(cs) && NeverReadyAndStalled(cs)
    ensures UniqueTypes(ApplyAll(cs, marks))
    ensures NeverReadyAndStalled(ApplyAll(cs, marks))
    ensures Frames(cs, ApplyAll(cs, marks))
    ensures IsTrue(ApplyAll(cs, marks), CLEANUP) <==>
              IsTrue(cs, CLEANUP) || exists k :: 0 <= k < |marks| && marks[k].CleanupFailure?
    decreases |marks|
  {
    hide Apply, IsTrue, UniqueTypes;
    if marks != [] {
      ApplyKeepsShape(cs, marks[0]);
      ApplyThenFind(cs, marks[0]);
      EveryRunOfMarks(Apply(cs, marks[0]), marks[1..]);
      assert forall k :: 0 <= k < |marks[1..]| ==> marks[1..][k] == marks[k + 1];
      assert forall k :: 1 <= k < |marks| ==> marks[k] == marks[1..][k - 1];
    }
  }

  // ---------------------------------------------------------------------------
  // Repeating a mark
  // ---------------------------------------------------------------------------

  /** The same mark taken at other clock readings. */
  predicate SameMark(a: Mark, b: Mark) {
    match (a, b)
    case (Ready(g, n, _, _), Ready(g', n', _, _)) => g == g' && n == n'
    case (Error(g, r, e, _), Error(g', r', e', _)) => g == g' && r == r' && e == e'
    case (Stalled(g, r, e, _, _), Stalled(g', r', e', _, _)) => g == g' && r == r' && e == e'
    case (CleanupFailure(g, r, c, _, _, _), CleanupFailure(g', r', c', _, _, _)) => g == g' && r == r' && c == c'
    case _ => false
  }

  ghost predicate AlreadySays(cs: seq<Condition>, c: Condition) {
    Find(cs, c.typ).Some? && SameReport(Find(cs, c.typ).value, c)
  }

  lemma {:induction false} SetAlreadySaid(cs: seq<Condition>, c: Condition)
    ensures AlreadySays(cs, c) ==> SetCondition(cs, c) == cs
  {
    if cs != [] && cs[0].typ != c.typ {
      SetAlreadySaid(cs[1..], c);
      assert cs == [cs[0]] + cs[1..];
    }
  }

  /** Repeating a mark at any other time leaves the list identical, transition times included. */
  lemma RepeatedMarkIsSilent(cs: seq<Condition>, m: Mark, again: Mark)
    requires SameMark(m, again)
    ensures Apply(Apply(cs, m), again) == Apply(cs, m)
  {
    var marked := Apply(cs, m);
    match m
    case Ready(g, note, t1, t2) =>
      var c1, c2 := ReadyCondition(g, note, again.t1), NotStalledCondition(g, again.t2);
      FindAfterSet(cs, ReadyCondition(g, note, t1));
      FindAfterSet(SetCondition(cs, ReadyCondition(g, note, t1)), NotStalledCondition(g, t2));
      SetAlreadySaid(marked, c1);
      SetAlreadySaid(marked, c2);
    case Error(g, reason, err, t1) =>
      FindAfterSet(cs, ErrorCondition(g, reason, err, t1));
      SetAlreadySaid(marked, ErrorCondition(g, reason, err, again.t1));
    case Stalled(g, reason, err, t1, t2) =>
      RepeatedStall(cs, m, again, marked);
    case CleanupFailure(g, reason, cause, t1, t2, t3) =>
      var s1, s2 := Stalled(g, reason, Some(cause), t1, t2), Stalled(g, reason, Some(cause), again.t1, again.t2);
      FindAfterSet(Apply(cs, s1), CleanupCondition(g, reason, cause, t3));
      RepeatedStall(cs, s1, s2, marked);
      SetAlreadySaid(marked, CleanupCondition(g, reason, cause, again.t3));
  }

  /** A list that answers lookups as the stalled list did ignores the repeated stall. */
  lemma RepeatedStall(cs: seq<Condition>, m: Mark, again: Mark, later: seq<Condition>)
    requires m.Stalled? && SameMark(m, again)
    requires forall typ :: typ != CLEANUP ==> Find(later, typ) == Find(Apply(cs, m), typ)
    ensures Apply(later, again) == later
  {
    hide SetCondition, Find;
    var e1, s1 := ErrorCondition(m.generation, m.reason, m.err, m.t1), StalledCondition(m.generation, m.reason, m.err, m.t2);
    FindAfterSet(cs, e1);
    FindAfterSet(SetCondition(cs, e1), s1);
    SetAlreadySaid(later, ErrorCondition(m.generation, m.reason, m.err, again.t1));
    SetAlreadySaid(later, StalledCondition(m.generation, m.reason, m.err, again.t2));
  }

  // ---------------------------------------------------------------------------
  // The list edited in place
  // ---------------------------------------------------------------------------

  class ConditionList {
    var items: seq<Condition>

    constructor (cs: seq<Condition>)
      ensures items == cs
    {
      items := cs;
    }

    /** `setCondition`: scan for the type, replace or keep the entry found, append otherwise. */
    method Set(c: Condition)
      modifies this
      ensures items == SetCondition(old(items), c)
    {
      hide SetCondition, Position;
      SetAtPosition(items, c);
      var i := 0;
      while i < |items|
        invariant 0 <= i <= |items|
        invariant items == old(items)
        invariant forall j :: 0 <= j < i ==> items[j].typ != c.typ
      {
        if items[i].typ == c.typ {
          if !SameReport(items[i], c) { items := items[i := c]; }
          return;
        }
        i := i + 1;
      }
      items := items + [c];
    }

    method MarkReady(generation: int, note: string, t1: int, t2: int)
      modifies this
      ensures items == Apply(old(items), Ready(generation, note, t1, t2))
    {
      Set(ReadyCondition(generation, note, t1));
      Set(NotStalledCondition(generation, t2));
    }

    method MarkError(generation: int, reason: string, err: Option<string>, t1: int)
      modifies this
      ensures items == Apply(old(items), Error(generation, reason, err, t1))
    {
      Set(ErrorCondition(generation, reason, err, t1));
    }

    method MarkStalled(generation: int, reason: string, err: Option<string>, t1: int, t2: int)
      modifies this
      ensures items == Apply(old(items), Stalled(generation, reason, err, t1, t2))
    {
      MarkError(generation, reason, err, t1);
      Set(StalledCondition(generation, reason, err, t2));
    }

    method MarkCleanupFailure(generation: int, reason: string, cause: string, t1: int, t2: int, t3: int)
      modifies this
      ensures items == Apply(old(items), CleanupFailure(generation, reason, cause, t1, t2, t3))
    {
      MarkStalled(generation, reason, Some(cause), t1, t2);
      Set(CleanupCondition(generation, reason, cause, t3));
    }
  }
}
