/**
 The version order of services/version_range.py. It is the program's own order, not Maven's: all
 words that are not known qualifiers sort below every number, and missing parts count as zero.
 Versions are taken over ASCII.
 */
module VersionOrder {

  datatype Part = Num(n: int) | Word(w: string)

  /* ---------- Normalising a version ---------- */

  predicate IsDigit(c: char) {
    '0' <= c <= '9'
  }

  predicate IsLetter(c: char) {
    'a' <= c <= 'z' || 'A' <= c <= 'Z'
  }

  function LowerChar(c: char): char {
    if 'A' <= c <= 'Z' then c - 'A' + 'a' else c
  }

  function Lower(s: string): (r: string)
    ensures |r| == |s|
  {
    seq(|s|, i requires 0 <= i < |s| => LowerChar(s[i]))
  }

  function NumberOf(digits: string): int {
    if digits == "" then 0 else NumberOf(digits[..|digits| - 1]) * 10 + (digits[|digits| - 1] as int - '0' as int)
  }

  function PartOfWord(w: string): Part {
    if w == "snapshot" then Num(-5)
    else if w == "alpha" || w == "a" then Num(-4)
    else if w == "beta" || w == "b" then Num(-3)
    else if w == "milestone" || w == "m" then Num(-2)
    else if w == "rc" || w == "cr" then Num(-1)
    else if w == "final" || w == "ga" || w == "release" then Num(0)
    else if w == "sp" then Num(1)
    else Word(w)
  }

  // The end of the longest run of digits (or of letters) from i on.
  function RunEnd(text: string, i: nat, digits: bool): (e: nat)
    requires i <= |text|
    ensures i <= e <= |text|
    ensures forall k :: i <= k < e ==> if digits then IsDigit(text[k]) else IsLetter(text[k])
    ensures e < |text| ==> !(if digits then IsDigit(text[e]) else IsLetter(text[e]))
    decreases |text| - i
  {
    if i < |text| && (if digits then IsDigit(text[i]) else IsLetter(text[i])) then RunEnd(text, i + 1, digits) else i
  }

  // The numbers and words of a lower-case text; everything else separates.
  function PartsFrom(text: string, i: nat): seq<Part>
    requires i <= |text|
    decreases |text| - i
  {
    if i == |text| then []
    else if IsDigit(text[i]) then
      var e := RunEnd(text, i + 1, true);
      [Num(NumberOf(text[i..e]))] + PartsFrom(text, e)
    else if IsLetter(text[i]) then
      var e := RunEnd(text, i + 1, false);
      [PartOfWord(text[i..e])] + PartsFrom(text, e)
    else PartsFrom(text, i + 1)
  }

  function Parts(version: string): seq<Part> {
    PartsFrom(Lower(version), 0)
  }

  method NormalizeParts(version: string) returns (parts: seq<Part>)
    ensures parts == Parts(version)
  {
    var text := Lower(version);
    parts := [];
    var i := 0;
    while i < |text|
      invariant i <= |text| && parts + PartsFrom(text, i) == Parts(version)
    {
      ghost var done := parts;
      if IsDigit(text[i]) {
        var start := i;
        i := i + 1;
        while i < |text| && IsDigit(text[i])
          invariant start < i <= |text| && RunEnd(text, start + 1, true) == RunEnd(text, i, true)
        {
          i := i + 1;
        }
        parts := parts + [Num(NumberOf(text[start..i]))];
        assert done + ([Num(NumberOf(text[start..i]))] + PartsFrom(text, i)) == parts + PartsFrom(text, i);
      } else if IsLetter(text[i]) {
        var start := i;
        i := i + 1;
        while i < |text| && IsLetter(text[i])
          invariant start < i <= |text| && RunEnd(text, start + 1, false) == RunEnd(text, i, false)
        {
          i := i + 1;
        }
        parts := parts + [PartOfWord(text[start..i])];
        assert done + ([PartOfWord(text[start..i])] + PartsFrom(text, i)) == parts + PartsFrom(text, i);
      } else {
        i := i + 1;
      }
    }
  }

  /* ---------- Comparing parts ---------- */

  // Python's order on strings.
  predicate WordLess(a: string, b: string) {
    b != "" && (a == "" || a[0] < b[0] || (a[0] == b[0] && WordLess(a[1..], b[1..])))
  }

  predicate PartLess(a: Part, b: Part) {
    match (a, b)
    case (Num(x), Num(y)) => x < y
    case (Num(_), Word(_)) => false
    case (Word(_), Num(_)) => true
    case (Word(v), Word(w)) => WordLess(v, w)
  }

  lemma {:induction false} WordLessTotal(a: string, b: string)
    ensures WordLess(a, b) ==> !WordLess(b, a) && a != b
    ensures a == b || WordLess(a, b) || WordLess(b, a)
  {
    if a != "" && b != "" && a[0] == b[0] {
      WordLessTotal(a[1..], b[1..]);
      assert a == [a[0]] + a[1..] && b == [b[0]] + b[1..];
    }
  }

  lemma {:induction false} WordLessTransitive(a: string, b: string, c: string)
    requires WordLess(a, b) && WordLess(b, c)
    ensures WordLess(a, c)
  {
    if a != "" && a[0] == b[0] && b[0] == c[0] {
      WordLessTransitive(a[1..], b[1..], c[1..]);
    }
  }

  lemma PartLessTotal(a: Part, b: Part)
    ensures PartLess(a, b) ==> !PartLess(b, a) && a != b
    ensures a == b || PartLess(a, b) || PartLess(b, a)
  {
    if a.Word? && b.Word? {
      WordLessTotal(a.w, b.w);
    }
  }

  lemma PartLessTransitive(a: Part, b: Part, c: Part)
    requires PartLess(a, b) && PartLess(b, c)
    ensures PartLess(a, c)
  {
    if a.Word? && b.Word? && c.Word? {
      WordLessTransitive(a.w, b.w, c.w);
    }
  }

  /* ---------- Comparing versions ---------- */

  // Part i, padding with zeros.
  function At(parts: seq<Part>, i: nat): Part {
    if i < |parts| then parts[i] else Num(0)
  }

  function CompareFrom(l: seq<Part>, r: seq<Part>, i: nat): int
    decreases |l| + |r| - i
  {
    if i >= |l| && i >= |r| then 0
    else if At(l, i) == At(r, i) then CompareFrom(l, r, i + 1)
    else if PartLess(At(l, i), At(r, i)) then -1
    else 1
  }

  function Compare(left: string, right: string): int {
    CompareFrom(Parts(left), Parts(right), 0)
  }

  method CompareVersions(left: string, right: string) returns (result: int)
    ensures result == Compare(left, right)
  {
    var l := NormalizeParts(left);
    var r := NormalizeParts(right);
    var maxLength := if |l| < |r| then |r| else |l|;
    var index := 0;
    while index < maxLength
      invariant index <= maxLength && CompareFrom(l, r, index) == CompareFrom(l, r, 0)
    {
      var a := if index < |l| then l[index] else Num(0);
      var b := if index < |r| then r[index] else Num(0);
      if a == b {
        index := index + 1;
        continue;
      }
      if a.Num? && b.Num? {
        return if a.n < b.n then -1 else 1;
      }
      if a.Num? {
        return 1;
      }
      if b.Num? {
        return -1;
      }
      return if WordLess(a.w, b.w) then -1 else 1;
    }
    return 0;
  }

  // l is below r: at the first place where they differ, l has the smaller part.
  ghost predicate Below(l: seq<Part>, r: seq<Part>) {
    exists k: nat :: PartLess(At(l, k), At(r, k)) && SameUpTo(l, r, k)
  }

  ghost predicate SameUpTo(l: seq<Part>, r: seq<Part>, k: nat) {
    forall i: nat :: i < k ==> At(l, i) == At(r, i)
  }

  ghost predicate SameParts(l: seq<Part>, r: seq<Part>) {
    forall i: nat :: At(l, i) == At(r, i)
  }

  lemma {:induction false} CompareFromMeaning(l: seq<Part>, r: seq<Part>, i: nat)
    requires SameUpTo(l, r, i)
    ensures var c := CompareFrom(l, r, i);
      && -1 <= c <= 1
      && (c < 0 ==> Below(l, r)) && (c > 0 ==> Below(r, l)) && (c == 0 ==> SameParts(l, r))
    decreases |l| + |r| - i
  {
    if i >= |l| && i >= |r| {
      assert SameParts(l, r);
    } else if At(l, i) == At(r, i) {
      assert SameUpTo(l, r, i + 1);
      CompareFromMeaning(l, r, i + 1);
    } else {
      PartLessTotal(At(l, i), At(r, i));
      assert SameUpTo(r, l, i);
    }
  }

  lemma BelowExcludes(l: seq<Part>, r: seq<Part>)
    requires Below(l, r)
    ensures !Below(r, l) && !SameParts(l, r)
  {
    var k: nat :| PartLess(At(l, k), At(r, k)) && SameUpTo(l, r, k);
    PartLessTotal(At(l, k), At(r, k));
    forall j: nat | SameUpTo(r, l, j)
      ensures !PartLess(At(r, j), At(l, j))
    {
      PartLessTotal(At(l, j), At(r, j));
      if k < j {
        assert At(r, k) == At(l, k);
      }
    }
  }

  lemma BelowTransitive(a: seq<Part>, b: seq<Part>, c: seq<Part>)
    requires (Below(a, b) && (Below(b, c) || SameParts(b, c))) || (SameParts(a, b) && Below(b, c))
    ensures Below(a, c)
  {
    if SameParts(a, b) {
      var k: nat :| PartLess(At(b, k), At(c, k)) && SameUpTo(b, c, k);
      assert PartLess(At(a, k), At(c, k)) && SameUpTo(a, c, k);
    } else {
      var k: nat :| PartLess(At(a, k), At(b, k)) && SameUpTo(a, b, k);
      if SameParts(b, c) {
        assert PartLess(At(a, k), At(c, k)) && SameUpTo(a, c, k);
      } else {
        var m: nat :| PartLess(At(b, m), At(c, m)) && SameUpTo(b, c, m);
        if k == m {
          PartLessTransitive(At(a, k), At(b, k), At(c, k));
        }
        var n := if k < m then k else m;
        assert PartLess(At(a, n), At(c, n)) && SameUpTo(a, c, n);
      }
    }
  }

  /** The loop decides the first-difference order, and equality up to padding. */
  lemma CompareMeaning(left: string, right: string)
    ensures var c := Compare(left, right); var l := Parts(left); var r := Parts(right);
      (c == -1 || c == 0 || c == 1) && (c < 0 <==> Below(l, r)) && (c > 0 <==> Below(r, l)) && (c == 0 <==> SameParts(l, r))
  {
    var l, r := Parts(left), Parts(right);
    CompareFromMeaning(l, r, 0);
    if Below(l, r) {
      BelowExcludes(l, r);
    }
    if Below(r, l) {
      BelowExcludes(r, l);
    }
  }

  /** compare_versions is sign-antisymmetric. */
  lemma CompareAntisymmetric(left: string, right: string)
    ensures Compare(left, right) == -Compare(right, left)
  {
    CompareMeaning(left, right);
    CompareMeaning(right, left);
    assert SameParts(Parts(left), Parts(right)) ==> SameParts(Parts(right), Parts(left));
    assert SameParts(Parts(right), Parts(left)) ==> SameParts(Parts(left), Parts(right));
  }

  /** compare_versions is transitive: with antisymmetry of signs, a total preorder. */
  lemma CompareTransitive(a: string, b: string, c: string)
    requires Compare(a, b) <= 0 && Compare(b, c) <= 0
    ensures Compare(a, c) <= 0
    ensures Compare(a, c) == 0 <==> Compare(a, b) == 0 && Compare(b, c) == 0
  {
    CompareMeaning(a, b);
    CompareMeaning(b, c);
    CompareMeaning(a, c);
    if Compare(a, b) < 0 || Compare(b, c) < 0 {
      BelowTransitive(Parts(a), Parts(b), Parts(c));
    } else {
      assert SameParts(Parts(a), Parts(c));
    }
  }

  /* ---------- When versions compare equal ---------- */

  function TrimZeros(parts: seq<Part>): seq<Part> {
    if parts != [] && parts[|parts| - 1] == Num(0) then TrimZeros(parts[..|parts| - 1]) else parts
  }

  lemma {:induction false} TrimKeeps(parts: seq<Part>, i: nat)
    ensures At(TrimZeros(parts), i) == At(parts, i)
    ensures TrimZeros(parts) == [] || TrimZeros(parts)[|TrimZeros(parts)| - 1] != Num(0)
    ensures |TrimZeros(parts)| <= |parts|
  {
    if parts != [] && parts[|parts| - 1] == Num(0) {
      TrimKeeps(parts[..|parts| - 1], i);
    }
  }

  lemma TrimmedIsShortest(a: seq<Part>, b: seq<Part>)
    requires SameParts(a, b) && (a == [] || a[|a| - 1] != Num(0))
    ensures |a| <= |b|
  {
    if a != [] {
      assert At(b, |a| - 1) == At(a, |a| - 1);
    }
  }

  /** Versions compare equal exactly when their parts agree after trailing zeros are dropped. */
  lemma CompareZeroExactly(left: string, right: string)
    ensures Compare(left, right) == 0 <==> TrimZeros(Parts(left)) == TrimZeros(Parts(right))
  {
    var l, r := Parts(left), Parts(right);
    var tl, tr := TrimZeros(l), TrimZeros(r);
    CompareMeaning(left, right);
    forall i: nat
      ensures At(tl, i) == At(l, i) && At(tr, i) == At(r, i)
    {
      TrimKeeps(l, i);
      TrimKeeps(r, i);
    }
    if SameParts(l, r) {
      assert forall i: nat :: At(tl, i) == At(tr, i);
      TrimKeeps(l, 0);
      TrimKeeps(r, 0);
      TrimmedIsShortest(tl, tr);
      TrimmedIsShortest(tr, tl);
      assert forall i :: 0 <= i < |tl| ==> tl[i] == At(tr, i);
    }
    assert tl == tr ==> forall i: nat :: At(l, i) == At(r, i);
  }

  /** A word that is not a known qualifier puts a version, whatever follows the word, below every
      version that has a number, a known qualifier or nothing in its place. */
  lemma UnknownWordIsLowest(left: string, right: string, k: nat)
    requires SameUpTo(Parts(left), Parts(right), k)
    requires k < |Parts(left)| && Parts(left)[k].Word? && At(Parts(right), k).Num?
    ensures Compare(left, right) < 0
  {
    assert PartLess(At(Parts(left), k), At(Parts(right), k));
    assert Below(Parts(left), Parts(right));
    CompareMeaning(left, right);
  }

  /* ---------- Reading single versions ---------- */

  lemma {:induction false} RunIs(text: string, i: nat, e: nat, digits: bool)
    requires i <= e <= |text|
    requires forall k :: i <= k < e ==> if digits then IsDigit(text[k]) else IsLetter(text[k])
    requires e < |text| ==> !(if digits then IsDigit(text[e]) else IsLetter(text[e]))
    ensures RunEnd(text, i, digits) == e
    decreases e - i
  {
    if i < e {
      RunIs(text, i + 1, e, digits);
    }
  }

  lemma WordAt(text: string, i: nat, e: nat)
    requires i < e <= |text| && (forall k :: i <= k < e ==> IsLetter(text[k])) && (e < |text| ==> !IsLetter(text[e]))
    ensures PartsFrom(text, i) == [PartOfWord(text[i..e])] + PartsFrom(text, e)
  {
    RunIs(text, i + 1, e, false);
  }

  // A digit with no digit after it is a number of its own; a separator after it is skipped.
  lemma DigitAt(text: string, i: nat)
    requires i < |text| && IsDigit(text[i]) && (i + 1 < |text| ==> !IsDigit(text[i + 1]))
    ensures PartsFrom(text, i) == [Num(text[i] as int - '0' as int)] + PartsFrom(text, i + 1)
    ensures i + 1 < |text| && !IsLetter(text[i + 1]) ==> PartsFrom(text, i + 1) == PartsFrom(text, i + 2)
  {
    assert text[i..i + 1] == [text[i]];
    assert NumberOf([text[i]]) == text[i] as int - '0' as int;
  }

  lemma PartsOfDriverVersion()
    ensures Parts("2.0.jre8") == [Num(2), Num(0), Word("jre"), Num(8)]
  {
    var text := "2.0.jre8";
    assert Lower(text) == text;
    hide *;
    DriverVersionParts(text);
    assert text[4..7] == "jre";
  }

  lemma DriverVersionParts(text: string)
    requires |text| == 8 && Lower(text) == text && text[4..7] == "jre"
    requires text[0] == '2' && text[1] == '.' && text[2] == '0' && text[3] == '.' && text[7] == '8'
    ensures Parts(text) == [Num(2), Num(0), Word("jre"), Num(8)]
  {
    assert text[4] == text[4..7][0] && text[5] == text[4..7][1] && text[6] == text[4..7][2];
    hide RunEnd, Lower;
    DigitAt(text, 0);
    DigitAt(text, 2);
    WordAt(text, 4, 7);
    DigitAt(text, 7);
  }

  /** A driver built for a platform, such as 2.0.jre8, is below every version 2.0 continued by numbers
      or known qualifiers, its snapshots and 2.0 itself included. */
  lemma DriverVersionIsBelow(right: string)
    requires At(Parts(right), 0) == Num(2) && At(Parts(right), 1) == Num(0) && At(Parts(right), 2).Num?
    ensures Compare("2.0.jre8", right) < 0
  {
    PartsOfDriverVersion();
    UnknownWordIsLowest("2.0.jre8", right, 2);
  }
}
