/**
 Choosing the lowest fix version (services/version_range.py): the versions are collected in a set,
 sorted by the version order, and the first one that fixes the vulnerability is taken.
 */
module FixVersion {
  import opened Collections
  import opened VersionOrder
  import opened VersionRange

  predicate IsAffected(version: string, ranges: seq<string>) {
    exists i :: 0 <= i < |ranges| && MatchesRange(version, ranges[i])
  }

  predicate IsFix(version: string, current: string, ranges: seq<string>) {
    Compare(version, current) > 0 && !IsAffected(version, ranges)
  }

  method IsFixVersion(version: string, current: string, ranges: seq<string>) returns (fixes: bool)
    ensures fixes == IsFix(version, current, ranges)
    ensures fixes <==> Compare(version, current) > 0 && forall range :: range in ranges ==> !MatchesRange(version, range)
  {
    var c := CompareVersions(version, current);
    if c <= 0 {
      return false;
    }
    for i := 0 to |ranges|
      invariant forall j :: 0 <= j < i ==> !MatchesRange(version, ranges[j])
    {
      var matches := MatchesRangeLoop(version, ranges[i]);
      if matches {
        return false;
      }
    }
    return true;
  }

  predicate Sorted(versions: seq<string>) {
    forall i, j :: 0 <= i < j < |versions| ==> Compare(versions[i], versions[j]) <= 0
  }

  // `sorted(..., key=_VersionSortKey)`: a stable sort, here by insertion.
  method SortVersions(versions: seq<string>) returns (sorted: seq<string>)
    ensures Sorted(sorted) && multiset(sorted) == multiset(versions)
  {
    sorted := [];
    for i := 0 to |versions|
      invariant Sorted(sorted) && multiset(sorted) == multiset(versions[..i])
    {
      assert versions[..i + 1] == versions[..i] + [versions[i]];
      sorted := Insert(sorted, versions[i]);
    }
    assert versions[..|versions|] == versions;
  }

  // Where v goes: after everything that is not above it.
  method Insert(sorted: seq<string>, v: string) returns (result: seq<string>)
    requires Sorted(sorted)
    ensures Sorted(result) && multiset(result) == multiset(sorted) + multiset{v}
  {
    hide Compare, Sorted;
    var i := |sorted|;
    while i > 0
      invariant 0 <= i <= |sorted|
      invariant forall j :: i <= j < |sorted| ==> Compare(sorted[j], v) > 0
    {
      var c := CompareVersions(sorted[i - 1], v);
      if c <= 0 {
        break;
      }
      i := i - 1;
    }
    result := sorted[..i] + [v] + sorted[i..];
    InsertedIsSorted(sorted, v, i);
    InsertedContents(sorted, v, i);
  }

  lemma InsertedContents(sorted: seq<string>, v: string, i: nat)
    requires i <= |sorted|
    ensures multiset(sorted[..i] + [v] + sorted[i..]) == multiset(sorted) + multiset{v}
  {
    assert sorted == sorted[..i] + sorted[i..];
  }

  lemma InsertedIsSorted(sorted: seq<string>, v: string, i: nat)
    requires Sorted(sorted) && i <= |sorted|
    requires i > 0 ==> Compare(sorted[i - 1], v) <= 0
    requires forall j :: i <= j < |sorted| ==> Compare(sorted[j], v) > 0
    ensures Sorted(sorted[..i] + [v] + sorted[i..])
  {
    forall j | 0 <= j < i
      ensures Compare(sorted[j], v) <= 0
    {
      if j < i - 1 {
        CompareTransitive(sorted[j], sorted[i - 1], v);
      }
    }
    forall j | i <= j < |sorted|
      ensures Compare(v, sorted[j]) <= 0
    {
      CompareAntisymmetric(v, sorted[j]);
    }
  }

  // No fix among the versions is below this one.
  predicate LowestFix(v: string, versions: seq<string>, current: string, ranges: seq<string>) {
    && v in versions && IsFix(v, current, ranges)
    && forall w :: w in versions && IsFix(w, current, ranges) ==> Compare(v, w) <= 0
  }

  /** `order` is the enumeration of `set(versions)`, in whatever order it comes. The result is absent
      exactly when no listed version is a fix; otherwise it is a listed fix, and no listed fix is
      below it. */
  method PickLowestFixVersion(versions: seq<string>, order: seq<string>, current: string, ranges: seq<string>)
    returns (fix: Option<string>)
    requires NoDuplicates(order) && forall v :: v in order <==> v in versions
    ensures fix.None? <==> forall v :: v in versions ==> !IsFix(v, current, ranges)
    ensures fix.Some? ==> LowestFix(fix.value, versions, current, ranges)
  {
    var sorted := SortVersions(order);
    assert forall v :: v in sorted <==> v in versions by {
      assert forall v :: v in sorted <==> v in multiset(sorted);
      assert forall v :: v in order <==> v in multiset(order);
    }
    for i := 0 to |sorted|
      invariant forall j :: 0 <= j < i ==> !IsFix(sorted[j], current, ranges)
    {
      var fixes := IsFixVersion(sorted[i], current, ranges);
      if fixes {
        forall w | w in versions && IsFix(w, current, ranges)
          ensures Compare(sorted[i], w) <= 0
        {
          var j :| 0 <= j < |sorted| && sorted[j] == w;
          if i == j {
            CompareAntisymmetric(w, w);
          }
        }
        return Some(sorted[i]);
      }
    }
    return None;
  }

  /** Whatever the order, two answers compare equal. */
  lemma AnswersCompareEqual(v: string, w: string, versions: seq<string>, current: string, ranges: seq<string>)
    requires LowestFix(v, versions, current, ranges) && LowestFix(w, versions, current, ranges)
    ensures Compare(v, w) == 0
  {
    CompareAntisymmetric(v, w);
  }

  // Two different listed fixes tie for the lowest place.
  predicate Tied(versions: seq<string>, current: string, ranges: seq<string>) {
    exists v, w :: v in versions && w in versions && v != w && Compare(v, w) == 0 && LowestFix(v, versions, current, ranges)
  }

  /** The answer depends on how the set is enumerated exactly when two different spellings tie for
      the lowest fix. */
  lemma AnswerUniqueExactly(versions: seq<string>, current: string, ranges: seq<string>)
    ensures (exists v, w :: v != w && LowestFix(v, versions, current, ranges) && LowestFix(w, versions, current, ranges))
      <==> Tied(versions, current, ranges)
  {
    if v, w :| v != w && LowestFix(v, versions, current, ranges) && LowestFix(w, versions, current, ranges) {
      AnswersCompareEqual(v, w, versions, current, ranges);
      assert Tied(versions, current, ranges);
    }
    if v, w :| v in versions && w in versions && v != w && Compare(v, w) == 0 && LowestFix(v, versions, current, ranges) {
      FixesRespectOrder(v, w, current, ranges);
      forall u | u in versions && IsFix(u, current, ranges)
        ensures Compare(w, u) <= 0
      {
        EqualsCompareAlike(v, w, u);
      }
      assert LowestFix(w, versions, current, ranges);
    }
  }

  /** Versions that compare equal are fixes together. */
  lemma FixesRespectOrder(v: string, w: string, current: string, ranges: seq<string>)
    requires Compare(v, w) == 0
    ensures IsFix(v, current, ranges) <==> IsFix(w, current, ranges)
  {
    EqualsCompareAlike(v, w, current);
    forall i | 0 <= i < |ranges|
      ensures MatchesRange(v, ranges[i]) <==> MatchesRange(w, ranges[i])
    {
      RangesRespectOrder(v, w, ranges[i]);
    }
  }

  /** Such ties exist: two spellings of version 2.0. */
  lemma TieExists()
    ensures Tied(["2.0", "2.0.0"], "1.0", [])
  {
    var v, w := "2.0", "2.0.0";
    PartsOfDotted();
    assert Compare(v, w) == 0 && Compare(v, "1.0") > 0 && Compare(w, "1.0") > 0;
    assert Compare(v, v) == 0 by { CompareAntisymmetric(v, v); }
    assert LowestFix(v, [v, w], "1.0", []);
    assert v in [v, w] && w in [v, w] && |v| != |w|;
  }

  lemma PartsOfDotted()
    ensures Parts("2.0") == [Num(2), Num(0)] && Parts("2.0.0") == [Num(2), Num(0), Num(0)] && Parts("1.0") == [Num(1), Num(0)]
  {
    TwoDigits("2.0");
    ThreeDigits("2.0.0");
    TwoDigits("1.0");
    hide *;
  }

  lemma TwoDigits(text: string)
    requires |text| == 3 && IsDigit(text[0]) && text[1] == '.' && IsDigit(text[2])
    ensures Parts(text) == [Num(text[0] as int - '0' as int), Num(text[2] as int - '0' as int)]
  {
    assert Lower(text) == text;
    DigitAt(text, 0);
    DigitAt(text, 2);
  }

  lemma ThreeDigits(text: string)
    requires |text| == 5 && IsDigit(text[0]) && text[1] == '.' && IsDigit(text[2]) && text[3] == '.' && IsDigit(text[4])
    ensures Parts(text) ==
      [Num(text[0] as int - '0' as int), Num(text[2] as int - '0' as int), Num(text[4] as int - '0' as int)]
  {
    assert Lower(text) == text;
    DigitAt(text, 0);
    DigitAt(text, 2);
    DigitAt(text, 4);
  }
}
