/**
 The list normalisers of the controllers: copy, optionally trim every value, sort, and drop
 adjacent duplicates. Strings are ordered by code point, which is the order Go's byte-wise
 comparison gives for UTF-8.
 */
module StringLists {

  /** Strict lexicographic order, as used by `slices.Sort` on strings. */
  predicate StrLess(a: string, b: string) {
    b != [] && (a == [] || a[0] < b[0] || (a[0] == b[0] && StrLess(a[1..], b[1..])))
  }

  lemma {:induction false} StrLessTrichotomy(a: string, b: string)
    ensures a == b || StrLess(a, b) || StrLess(b, a)
  {
    if a != [] && b != [] && a[0] == b[0] {
      StrLessTrichotomy(a[1..], b[1..]);
      assert a == [a[0]] + a[1..] && b == [b[0]] + b[1..];
    }
  }

  lemma {:induction false} StrLessTransitive(a: string, b: string, c: string)
    requires StrLess(a, b) && StrLess(b, c)
    ensures StrLess(a, c)
  {
    if a != [] && a[0] == b[0] && b[0] == c[0] {
      StrLessTransitive(a[1..], b[1..], c[1..]);
    }
  }

  lemma {:induction false} StrLessIrreflexive(a: string)
    ensures !StrLess(a, a)
  {
    if a != [] {
      StrLessIrreflexive(a[1..]);
    }
  }

  /** The values of a list, forgetting order and repetition. */
  ghost function Elems(s: seq<string>): set<string> {
    set x | x in s
  }

  ghost predicate Sorted(s: seq<string>) {
    forall i, j :: 0 <= i < j < |s| ==> s[i] == s[j] || StrLess(s[i], s[j])
  }

  ghost predicate Ascending(s: seq<string>) {
    forall i, j :: 0 <= i < j < |s| ==> StrLess(s[i], s[j])
  }

  /** Insert into a sorted list; the building block of `Sort`. */
  function Insert(x: string, s: seq<string>): seq<string> {
    if s == [] || StrLess(x, s[0]) then [x] + s else [s[0]] + Insert(x, s[1..])
  }

  /** `slices.Sort`, as the sorted permutation it returns. */
  function Sort(s: seq<string>): seq<string> {
    if s == [] then [] else Insert(s[0], Sort(s[1..]))
  }

  /** `slices.Compact`: keep the first of every run of equal neighbours. */
  function Compact(s: seq<string>): seq<string> {
    if |s| <= 1 then s
    else if s[0] == s[1] then Compact(s[1..])
    else [s[0]] + Compact(s[1..])
  }

  /** `normalizedIDs`: sort a copy and compact it. */
  function Normalize(s: seq<string>): seq<string> {
    Compact(Sort(s))
  }

  lemma {:induction false} InsertKeeps(x: string, s: seq<string>)
    requires Sorted(s)
    ensures Sorted(Insert(x, s))
    ensures multiset(Insert(x, s)) == multiset(s) + multiset{x}
  {
    if s == [] {
    } else if StrLess(x, s[0]) {
      forall j | 0 <= j < |s| ensures StrLess(x, s[j]) {
        if j > 0 && s[j] != s[0] { StrLessTransitive(x, s[0], s[j]); }
      }
    } else {
      InsertKeeps(x, s[1..]);
      InsertBehind(x, s);
    }
  }

  lemma InsertBehind(x: string, s: seq<string>)
    requires s != [] && !StrLess(x, s[0]) && Sorted(s) && Sorted(Insert(x, s[1..]))
    requires multiset(Insert(x, s[1..])) == multiset(s[1..]) + multiset{x}
    ensures Sorted(Insert(x, s))
    ensures multiset(Insert(x, s)) == multiset(s) + multiset{x}
  {
    hide StrLess, Insert;
    var rest := Insert(x, s[1..]);
    assert Insert(x, s) == [s[0]] + rest by { InsertUnfolds(x, s); }
    assert s == [s[0]] + s[1..];
    forall j | 0 <= j < |rest| ensures s[0] == rest[j] || StrLess(s[0], rest[j]) {
      StrLessTrichotomy(x, s[0]);
      if rest[j] != x { BehindFirst(s, x, rest, j); }
    }
    ConsSorted(s[0], rest);
  }

  lemma InsertUnfolds(x: string, s: seq<string>)
    requires s != [] && !StrLess(x, s[0])
    ensures Insert(x, s) == [s[0]] + Insert(x, s[1..])
  {
  }

  /** An inserted list holds only the new value and values of the old tail. */
  lemma BehindFirst(s: seq<string>, x: string, rest: seq<string>, j: nat)
    requires s != [] && Sorted(s) && multiset(rest) == multiset(s[1..]) + multiset{x}
    requires j < |rest| && rest[j] != x
    ensures s[0] == rest[j] || StrLess(s[0], rest[j])
  {
    hide StrLess;
    var y := rest[j];
    assert y in multiset(rest);
    assert y in s[1..];
    var k :| 0 <= k < |s[1..]| && s[1..][k] == y;
    assert s[k + 1] == y;
  }

  lemma ConsSorted(first: string, rest: seq<string>)
    requires Sorted(rest) && forall j :: 0 <= j < |rest| ==> first == rest[j] || StrLess(first, rest[j])
    ensures Sorted([first] + rest)
  {
    hide StrLess;
  }

  lemma {:induction false} SortIsSortedPermutation(s: seq<string>)
    ensures Sorted(Sort(s))
    ensures multiset(Sort(s)) == multiset(s)
  {
    if s != [] {
      SortIsSortedPermutation(s[1..]);
      InsertKeeps(s[0], Sort(s[1..]));
      assert s == [s[0]] + s[1..];
    }
  }

  lemma {:induction false} InsertFront(x: string, s: seq<string>)
    requires Sorted([x] + s)
    ensures Insert(x, s) == [x] + s
  {
    if s != [] && !StrLess(x, s[0]) {
      var all := [x] + s;
      assert all[0] == x && all[1] == s[0];
      assert [x] + s[1..] == all[1..];
      InsertFront(x, s[1..]);
    }
  }

  lemma {:induction false} SortSorted(s: seq<string>)
    requires Sorted(s)
    ensures Sort(s) == s
  {
    if s != [] {
      assert s == [s[0]] + s[1..];
      SortSorted(s[1..]);
      InsertFront(s[0], s[1..]);
    }
  }

  /** Sorting twice is sorting once, so what is sent compares equal to itself. */
  lemma SortIdempotent(s: seq<string>)
    ensures Sort(Sort(s)) == Sort(s)
  {
    SortIsSortedPermutation(s);
    SortSorted(Sort(s));
  }

  /** Sorting decides whether two lists hold the same values equally often. */
  lemma {:induction false} SortDecides(a: seq<string>, b: seq<string>)
    requires multiset(a) == multiset(b)
    ensures Sort(a) == Sort(b)
  {
    SortIsSortedPermutation(a);
    SortIsSortedPermutation(b);
    SortedUnique(Sort(a), Sort(b));
  }

  lemma {:induction false} SortedUnique(a: seq<string>, b: seq<string>)
    requires Sorted(a) && Sorted(b) && multiset(a) == multiset(b)
    ensures a == b
  {
    hide StrLess;
    if a != [] {
      assert a[0] in multiset(b);
      SameFirst(a, b);
      RestOf(a);
      RestOf(b);
      SortedUnique(a[1..], b[1..]);
      assert a == [a[0]] + a[1..] && b == [b[0]] + b[1..];
    } else {
      assert |multiset(a)| == |a| && |multiset(b)| == |b|;
    }
  }

  lemma RestOf(s: seq<string>)
    requires s != []
    ensures multiset(s[1..]) == multiset(s) - multiset{s[0]}
  {
    assert s == [s[0]] + s[1..];
  }

  lemma SameFirst(a: seq<string>, b: seq<string>)
    requires Sorted(a) && Sorted(b) && multiset(a) == multiset(b) && a != [] && b != []
    ensures a[0] == b[0]
  {
    hide StrLess, Sorted;
    assert a[0] in multiset(b) && b[0] in multiset(a);
    SmallestFirst(a, b[0]);
    SmallestFirst(b, a[0]);
    if a[0] != b[0] {
      StrLessTransitive(a[0], b[0], a[0]);
      StrLessIrreflexive(a[0]);
    }
  }

  lemma SmallestFirst(s: seq<string>, x: string)
    requires Sorted(s) && x in s
    ensures x == s[0] || StrLess(s[0], x)
  {
    var i :| 0 <= i < |s| && s[i] == x;
    assert i > 0 ==> s[0] == s[i] || StrLess(s[0], s[i]);
  }

  lemma {:induction false} CompactAscends(s: seq<string>)
    requires Sorted(s)
    ensures Ascending(Compact(s))
    ensures Elems(Compact(s)) == Elems(s)
    ensures s != [] ==> Compact(s) != [] && Compact(s)[0] == s[0]
  {
    if |s| > 1 {
      assert s == [s[0]] + s[1..];
      CompactAscends(s[1..]);
      var rest := Compact(s[1..]);
      if s[0] == s[1] {
      } else {
        forall j | 0 <= j < |rest| ensures StrLess(s[0], rest[j]) {
          assert rest[j] in Elems(s[1..]);
          if j > 0 { StrLessTransitive(s[0], s[1], rest[j]); }
        }
        assert forall x :: x in s <==> x == s[0] || x in s[1..];
        assert forall x :: x in s[1..] <==> x in Elems(rest);
      }
    }
  }

  /** Normalising keeps exactly the values and lists each once, in ascending order. */
  lemma NormalizeCanonical(s: seq<string>)
    ensures Ascending(Normalize(s))
    ensures Elems(Normalize(s)) == Elems(s)
    ensures Normalize(s) == [] <==> s == []
  {
    SortIsSortedPermutation(s);
    CompactAscends(Sort(s));
    forall x ensures x in Sort(s) <==> x in s {
      assert x in multiset(Sort(s)) <==> x in multiset(s);
    }
    if s != [] {
      assert s[0] in Sort(s);
    }
  }

  /** An ascending list is determined by its values. */
  lemma {:induction false} AscendingUnique(a: seq<string>, b: seq<string>)
    requires Ascending(a) && Ascending(b) && Elems(a) == Elems(b)
    ensures a == b
  {
    ElemsEmpty(a);
    ElemsEmpty(b);
    if a != [] {
      assert a[0] in Elems(b) && b[0] in Elems(a);
      FirstIsLeast(a, b[0]);
      FirstIsLeast(b, a[0]);
      if a[0] != b[0] {
        StrLessTransitive(a[0], b[0], a[0]);
        StrLessIrreflexive(a[0]);
      }
      TailElems(a);
      TailElems(b);
      AscendingUnique(a[1..], b[1..]);
      assert a == [a[0]] + a[1..] && b == [b[0]] + b[1..];
    }
  }

  lemma ElemsEmpty(s: seq<string>)
    ensures Elems(s) == {} <==> s == []
  {
    if s != [] {
      assert s[0] in Elems(s);
    }
  }

  lemma FirstIsLeast(s: seq<string>, x: string)
    requires Ascending(s) && x in s
    ensures x == s[0] || StrLess(s[0], x)
  {
    var i :| 0 <= i < |s| && s[i] == x;
    assert i > 0 ==> StrLess(s[0], s[i]);
  }

  lemma TailElems(s: seq<string>)
    requires Ascending(s) && s != []
    ensures Elems(s[1..]) == Elems(s) - {s[0]}
  {
    assert s == [s[0]] + s[1..];
    StrLessIrreflexive(s[0]);
    forall x | x in s[1..] ensures x != s[0] {
      var i :| 0 <= i < |s[1..]| && s[1..][i] == x;
      assert StrLess(s[0], s[i + 1]);
    }
  }

  /** `slices.Equal` on normalised lists decides equality of the underlying sets. */
  lemma NormalizeDecides(a: seq<string>, b: seq<string>)
    ensures Normalize(a) == Normalize(b) <==> Elems(a) == Elems(b)
  {
    NormalizeCanonical(a);
    NormalizeCanonical(b);
    if Elems(a) == Elems(b) {
      AscendingUnique(Normalize(a), Normalize(b));
    }
  }

  lemma NormalizeIdempotent(s: seq<string>)
    ensures Normalize(Normalize(s)) == Normalize(s)
  {
    NormalizeCanonical(s);
    NormalizeDecides(Normalize(s), s);
  }

  // ---------------------------------------------------------------------------
  // Trimming
  // ---------------------------------------------------------------------------

  /** `unicode.IsSpace`. */
  predicate IsSpace(c: char) {
    var n := c as int;
    9 <= n <= 13 || n == 0x20 || n == 0x85 || n == 0xA0 || n == 0x1680 || 0x2000 <= n <= 0x200A
    || n == 0x2028 || n == 0x2029 || n == 0x202F || n == 0x205F || n == 0x3000
  }

  function TrimLeft(s: string): string {
    if s != [] && IsSpace(s[0]) then TrimLeft(s[1..]) else s
  }

  function TrimRight(s: string): string {
    if s != [] && IsSpace(s[|s| - 1]) then TrimRight(s[..|s| - 1]) else s
  }

  /** `strings.TrimSpace`. */
  function TrimSpace(s: string): string {
    TrimRight(TrimLeft(s))
  }

  ghost predicate Trimmed(s: string) {
    s == [] || (!IsSpace(s[0]) && !IsSpace(s[|s| - 1]))
  }

  lemma {:induction false} TrimLeftStarts(s: string)
    ensures TrimLeft(s) == [] || !IsSpace(TrimLeft(s)[0])
  {
    if s != [] && IsSpace(s[0]) { TrimLeftStarts(s[1..]); }
  }

  lemma {:induction false} TrimRightEnds(s: string)
    ensures TrimRight(s) == [] || !IsSpace(TrimRight(s)[|TrimRight(s)| - 1])
    ensures TrimRight(s) <= s
  {
    if s != [] && IsSpace(s[|s| - 1]) { TrimRightEnds(s[..|s| - 1]); }
  }

  /** A trimmed string has no space at either end, and trimming again changes nothing. */
  lemma TrimSpaceTrims(s: string)
    ensures Trimmed(TrimSpace(s))
    ensures TrimSpace(TrimSpace(s)) == TrimSpace(s)
  {
    TrimLeftStarts(s);
    TrimRightEnds(TrimLeft(s));
    var t := TrimSpace(s);
    assert t != [] ==> t[0] == TrimLeft(s)[0];
    assert TrimLeft(t) == t;
  }

  predicate AllSpace(s: string) {
    forall k :: 0 <= k < |s| ==> IsSpace(s[k])
  }

  lemma {:induction false} TrimLeftCuts(s: string) returns (l: string)
    ensures AllSpace(l) && s == l + TrimLeft(s)
  {
    if s != [] && IsSpace(s[0]) {
      var rest := TrimLeftCuts(s[1..]);
      l := [s[0]] + rest;
      assert s == [s[0]] + s[1..];
    } else {
      l := [];
    }
  }

  lemma {:induction false} TrimRightCuts(s: string) returns (r: string)
    ensures AllSpace(r) && s == TrimRight(s) + r
  {
    if s != [] && IsSpace(s[|s| - 1]) {
      var rest := TrimRightCuts(s[..|s| - 1]);
      r := rest + [s[|s| - 1]];
      assert s == s[..|s| - 1] + [s[|s| - 1]];
    } else {
      r := [];
    }
  }

  /** Trimming takes away spaces at the two ends and nothing else. */
  lemma TrimSpaceCuts(s: string) returns (l: string, r: string)
    ensures AllSpace(l) && AllSpace(r) && s == l + TrimSpace(s) + r
    ensures TrimSpace(s) == "" <==> AllSpace(s)
  {
    l := TrimLeftCuts(s);
    r := TrimRightCuts(TrimLeft(s));
    TrimSpaceTrims(s);
    var t := TrimSpace(s);
    if t != "" { assert s[|l|] == t[0]; }
  }

  function TrimAll(values: seq<string>): (r: seq<string>)
    ensures |r| == |values|
    ensures forall i :: 0 <= i < |r| ==> r[i] == TrimSpace(values[i])
  {
    seq(|values|, i requires 0 <= i < |values| => TrimSpace(values[i]))
  }

  /** The role normalisers: trim, sort, compact. */
  function NormalizeTrimmed(values: seq<string>): seq<string> {
    Normalize(TrimAll(values))
  }

  lemma NormalizeTrimmedCanonical(values: seq<string>)
    ensures Ascending(NormalizeTrimmed(values))
    ensures forall x :: x in NormalizeTrimmed(values) <==> exists v :: v in values && x == TrimSpace(v)
    ensures NormalizeTrimmed(values) == [] <==> values == []
  {
    var t := TrimAll(values);
    NormalizeCanonical(t);
    forall x ensures x in NormalizeTrimmed(values) <==> exists v :: v in values && x == TrimSpace(v) {
      assert x in NormalizeTrimmed(values) <==> x in Elems(NormalizeTrimmed(values));
      if x in t {
        var i :| 0 <= i < |t| && t[i] == x;
        assert values[i] in values;
      }
      if v :| v in values && x == TrimSpace(v) {
        var i :| 0 <= i < |values| && values[i] == v;
        assert t[i] == x;
      }
    }
  }

  /** The two lists hold the same values once trimmed, in any order and number. */
  ghost predicate SameTrimmed(a: seq<string>, b: seq<string>) {
    forall x :: InTrimmed(x, a) <==> InTrimmed(x, b)
  }

  ghost predicate InTrimmed(x: string, values: seq<string>) {
    exists v :: v in values && x == TrimSpace(v)
  }

  lemma NormalizeTrimmedDecides(a: seq<string>, b: seq<string>)
    ensures NormalizeTrimmed(a) == NormalizeTrimmed(b) <==> SameTrimmed(a, b)
  {
    hide TrimSpace, NormalizeTrimmed;
    NormalizeTrimmedCanonical(a);
    NormalizeTrimmedCanonical(b);
    if SameTrimmed(a, b) {
      var l, r := NormalizeTrimmed(a), NormalizeTrimmed(b);
      forall x ensures x in l <==> x in r {
        assert InTrimmed(x, a) <==> InTrimmed(x, b);
      }
      assert Elems(l) == Elems(r) by { forall x ensures x in Elems(l) <==> x in Elems(r) {} }
      AscendingUnique(l, r);
    } else {
      var x :| InTrimmed(x, a) != InTrimmed(x, b);
      assert x in NormalizeTrimmed(a) <==> x !in NormalizeTrimmed(b);
    }
  }

  /** A normalised list normalises to itself: what the encoder sends is what the matcher compares. */
  lemma NormalizeTrimmedIdempotent(values: seq<string>)
    ensures NormalizeTrimmed(NormalizeTrimmed(values)) == NormalizeTrimmed(values)
  {
    var r := NormalizeTrimmed(values);
    NormalizeTrimmedCanonical(values);
    forall i | 0 <= i < |r| ensures TrimAll(r)[i] == r[i] {
      assert r[i] in r;
      var v :| v in values && r[i] == TrimSpace(v);
      TrimSpaceTrims(v);
    }
    assert TrimAll(r) == r;
    NormalizeIdempotent(TrimAll(values));
  }

  /** `normalizedRoleValuesForComparison` and its two copies: trims a private copy in place. */
  method NormalizeRoleValues(values: seq<string>) returns (r: seq<string>)
    ensures r == NormalizeTrimmed(values)
    ensures Ascending(r)
    ensures forall x :: x in r <==> exists v :: v in values && x == TrimSpace(v)
  {
    var result := new string[|values|](i requires 0 <= i < |values| => values[i]);
    for i := 0 to result.Length
      invariant forall j :: 0 <= j < i ==> result[j] == TrimSpace(values[j])
      invariant forall j :: i <= j < result.Length ==> result[j] == values[j]
    {
      result[i] := TrimSpace(result[i]);
    }
    assert result[..] == TrimAll(values);
    NormalizeTrimmedCanonical(values);
    r := Compact(Sort(result[..]));
  }

  /** `normalizedRoleValues`: the same list, refused when a value trims to nothing. */
  method CheckedRoleValues(values: seq<string>) returns (ok: bool, r: seq<string>)
    ensures ok <==> forall v :: v in values ==> TrimSpace(v) != ""
    ensures r == if ok then NormalizeTrimmed(values) else []
  {
    r := NormalizeRoleValues(values);
    ok := "" !in r;
    if !ok { r := []; }
  }
}
