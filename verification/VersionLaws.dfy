/**
 What the version order says of version texts: the ranks of the qualifiers, the order of numbers
 and of words, and letter case (services/version_range.py).
 */
module VersionLaws {
  import opened VersionOrder

  /* ---------- Reading texts piece by piece ---------- */

  // No run of digits and no run of letters crosses from a to b.
  predicate Cut(a: string, b: string) {
    a != "" && b != "" ==>
      && !(IsDigit(a[|a| - 1]) && IsDigit(b[0]))
      && !(IsLetter(a[|a| - 1]) && IsLetter(b[0]))
  }

  lemma RunInFront(a: string, b: string, i: nat, digits: bool)
    requires Cut(a, b) && i < |a| && if digits then IsDigit(a[i]) else IsLetter(a[i])
    ensures RunEnd(a + b, i + 1, digits) == RunEnd(a, i + 1, digits)
    ensures (a + b)[i] == a[i] && (a + b)[i..RunEnd(a, i + 1, digits)] == a[i..RunEnd(a, i + 1, digits)]
  {
    var e := RunEnd(a, i + 1, digits);
    hide RunEnd;
    if e == |a| && b != "" {
      assert (a + b)[e] == b[0];
      assert if digits then IsDigit(a[|a| - 1]) else IsLetter(a[|a| - 1]);
    }
    RunIs(a + b, i + 1, e, digits);
  }

  lemma PartsStep(text: string, i: nat)
    requires i < |text|
    ensures PartsFrom(text, i) ==
      if IsDigit(text[i]) then [Num(NumberOf(text[i..RunEnd(text, i + 1, true)]))] + PartsFrom(text, RunEnd(text, i + 1, true))
      else if IsLetter(text[i]) then [PartOfWord(text[i..RunEnd(text, i + 1, false)])] + PartsFrom(text, RunEnd(text, i + 1, false))
      else PartsFrom(text, i + 1)
  {
    hide RunEnd, NumberOf, PartOfWord;
  }

  lemma PartsEnd(text: string)
    ensures PartsFrom(text, |text|) == []
  {
  }

  lemma Regroup(head: seq<Part>, middle: seq<Part>, tail: seq<Part>)
    ensures head + (middle + tail) == (head + middle) + tail
  {
  }

  lemma {:induction false} PartsInFront(a: string, b: string, i: nat)
    requires Cut(a, b) && i <= |a|
    ensures PartsFrom(a + b, i) == PartsFrom(a, i) + PartsFrom(a + b, |a|)
    decreases |a| - i
  {
    hide *;
    if i == |a| {
      PartsEnd(a);
    } else {
      var digits := IsDigit(a[i]);
      PartsStep(a, i);
      PartsStep(a + b, i);
      if digits || IsLetter(a[i]) {
        var e := RunEnd(a, i + 1, digits);
        RunInFront(a, b, i, digits);
        PartsInFront(a, b, e);
        Regroup([if digits then Num(NumberOf(a[i..e])) else PartOfWord(a[i..e])], PartsFrom(a, e), PartsFrom(a + b, |a|));
      } else {
        PartsInFront(a, b, i + 1);
      }
    }
  }

  lemma RunBehind(a: string, b: string, i: nat, digits: bool)
    requires i < |b| && if digits then IsDigit(b[i]) else IsLetter(b[i])
    ensures var e := RunEnd(b, i + 1, digits);
      && RunEnd(a + b, |a| + i + 1, digits) == |a| + e
      && (a + b)[|a| + i] == b[i] && (a + b)[|a| + i..|a| + e] == b[i..e]
  {
    var e := RunEnd(b, i + 1, digits);
    hide RunEnd;
    forall k | |a| <= k < |a + b|
      ensures (a + b)[k] == b[k - |a|]
    {
    }
    RunIs(a + b, |a| + i + 1, |a| + e, digits);
  }

  lemma {:induction false} PartsBehind(a: string, b: string, i: nat)
    requires i <= |b|
    ensures PartsFrom(a + b, |a| + i) == PartsFrom(b, i)
    decreases |b| - i
  {
    hide *;
    if i == |b| {
      PartsEnd(b);
      PartsEnd(a + b);
    } else {
      var digits := IsDigit(b[i]);
      PartsStep(b, i);
      PartsStep(a + b, |a| + i);
      if digits || IsLetter(b[i]) {
        RunBehind(a, b, i, digits);
        PartsBehind(a, b, RunEnd(b, i + 1, digits));
      } else {
        PartsBehind(a, b, i + 1);
      }
    }
  }

  lemma LowerConcat(a: string, b: string)
    ensures Lower(a + b) == Lower(a) + Lower(b)
    ensures Cut(a, b) ==> Cut(Lower(a), Lower(b))
  {
  }

  /** A version text cut where no run crosses is read piece by piece. */
  lemma PartsConcat(a: string, b: string)
    requires Cut(a, b)
    ensures Parts(a + b) == Parts(a) + Parts(b)
  {
    LowerConcat(a, b);
    PartsInFront(Lower(a), Lower(b), 0);
    PartsBehind(Lower(a), Lower(b), 0);
    hide PartsFrom, Lower, Cut;
  }

  predicate Separators(s: string) {
    forall c :: c in s ==> !IsDigit(c) && !IsLetter(c)
  }

  lemma {:induction false} SeparatorsAreSkipped(s: string, i: nat)
    requires Separators(s) && i <= |s|
    ensures PartsFrom(s, i) == []
    decreases |s| - i
  {
    if i < |s| {
      assert s[i] in s;
      SeparatorsAreSkipped(s, i + 1);
    }
  }

  /* ---------- Qualifiers ---------- */

  predicate IsWord(w: string) {
    w != "" && forall c :: c in w ==> 'a' <= c <= 'z'
  }

  // A word may follow x after some separators, or directly when x does not end with a letter.
  predicate Joins(x: string, link: string) {
    Separators(link) && (link == "" && x != "" ==> !IsLetter(x[|x| - 1]))
  }

  lemma PartsOfWord(w: string)
    requires IsWord(w)
    ensures Parts(w) == [PartOfWord(w)]
  {
    assert forall k :: 0 <= k < |w| ==> w[k] in w;
    assert Lower(w) == w;
    WordAt(w, 0, |w|);
    assert w[0..|w|] == w && PartsFrom(w, |w|) == [];
  }

  lemma PartsWithWord(x: string, link: string, w: string)
    requires Joins(x, link) && IsWord(w)
    ensures Parts(x + link + w) == Parts(x) + [PartOfWord(w)]
  {
    assert w[0] in w;
    assert link != "" ==> link[0] in link && link[|link| - 1] in link;
    assert Lower(link) == link by {
      assert forall k :: 0 <= k < |link| ==> link[k] in link;
    }
    SeparatorsAreSkipped(link, 0);
    assert link == "" ==> x + link == x;
    PartsConcat(x, link);
    PartsConcat(x + link, w);
    PartsOfWord(w);
    hide PartOfWord, PartsFrom, Lower;
  }

  // The first place where two versions differ decides.
  lemma FirstDifference(v: string, w: string, k: nat)
    requires SameUpTo(Parts(v), Parts(w), k) && PartLess(At(Parts(v), k), At(Parts(w), k))
    ensures Compare(v, w) < 0
  {
    assert Below(Parts(v), Parts(w));
    CompareMeaning(v, w);
  }

  lemma WordsDecide(x: string, link: string, v: string, w: string)
    requires Joins(x, link) && IsWord(v) && IsWord(w)
    ensures PartLess(PartOfWord(v), PartOfWord(w)) ==> Compare(x + link + v, x + link + w) < 0
    ensures PartOfWord(v) == PartOfWord(w) ==> Compare(x + link + v, x + link + w) == 0
  {
    PartsWithWord(x, link, v);
    PartsWithWord(x, link, w);
    hide PartOfWord, Parts, Compare, PartLess, Joins;
    if PartLess(PartOfWord(v), PartOfWord(w)) {
      FirstDifference(x + link + v, x + link + w, |Parts(x)|);
    }
    if PartOfWord(v) == PartOfWord(w) {
      CompareMeaning(x + link + v, x + link + w);
    }
  }

  lemma WordDecides(x: string, link: string, w: string)
    requires Joins(x, link) && IsWord(w)
    ensures PartLess(PartOfWord(w), Num(0)) ==> Compare(x + link + w, x) < 0
    ensures PartLess(Num(0), PartOfWord(w)) ==> Compare(x, x + link + w) < 0
    ensures PartOfWord(w) == Num(0) ==> Compare(x + link + w, x) == 0
  {
    PartsWithWord(x, link, w);
    hide PartOfWord, Parts, Compare, PartLess, Joins;
    if PartLess(PartOfWord(w), Num(0)) {
      FirstDifference(x + link + w, x, |Parts(x)|);
    }
    if PartLess(Num(0), PartOfWord(w)) {
      FirstDifference(x, x + link + w, |Parts(x)|);
    }
    if PartOfWord(w) == Num(0) {
      CompareMeaning(x + link + w, x);
    }
  }

  lemma KnownWords()
    ensures IsWord("snapshot") && IsWord("alpha") && IsWord("beta") && IsWord("milestone") && IsWord("rc") && IsWord("sp")
    ensures IsWord("a") && IsWord("b") && IsWord("m") && IsWord("cr")
    ensures IsWord("final") && IsWord("ga") && IsWord("release")
  {
  }

  /** For every version x: its snapshot is below its alpha, that below its beta, its milestone, its
      release candidate, x itself, and x below its service pack. */
  lemma QualifiersRise(x: string, link: string)
    requires Joins(x, link)
    ensures Compare(x + link + "snapshot", x + link + "alpha") < 0
    ensures Compare(x + link + "alpha", x + link + "beta") < 0
    ensures Compare(x + link + "beta", x + link + "milestone") < 0
    ensures Compare(x + link + "milestone", x + link + "rc") < 0
    ensures Compare(x + link + "rc", x) < 0
    ensures Compare(x, x + link + "sp") < 0
  {
    KnownWords();
    hide Compare, Joins, IsWord;
    WordsDecide(x, link, "snapshot", "alpha");
    WordsDecide(x, link, "alpha", "beta");
    WordsDecide(x, link, "beta", "milestone");
    WordsDecide(x, link, "milestone", "rc");
    WordDecides(x, link, "rc");
    WordDecides(x, link, "sp");
  }

  /** The short names tie with the long ones, and the names of a release with the bare version. */
  lemma QualifiersTie(x: string, link: string)
    requires Joins(x, link)
    ensures Compare(x + link + "a", x + link + "alpha") == 0
    ensures Compare(x + link + "b", x + link + "beta") == 0
    ensures Compare(x + link + "m", x + link + "milestone") == 0
    ensures Compare(x + link + "cr", x + link + "rc") == 0
    ensures Compare(x + link + "final", x) == 0
    ensures Compare(x + link + "ga", x) == 0
    ensures Compare(x + link + "release", x) == 0
  {
    KnownWords();
    hide Compare, Joins, IsWord;
    WordsDecide(x, link, "a", "alpha");
    WordsDecide(x, link, "b", "beta");
    WordsDecide(x, link, "m", "milestone");
    WordsDecide(x, link, "cr", "rc");
    WordDecides(x, link, "final");
    WordDecides(x, link, "ga");
    WordDecides(x, link, "release");
  }

  const Qualifiers: set<string> := {
    "snapshot", "alpha", "a", "beta", "b", "milestone", "m", "rc", "cr", "final", "ga", "release", "sp"
  }

  // v comes before w in the dictionary.
  predicate Precedes(v: string, w: string) {
    exists k :: 0 <= k <= |v| && k < |w| && v[..k] == w[..k] && (k < |v| ==> v[k] < w[k])
  }

  lemma PrecedesAtOnce(v: string, w: string)
    requires v != "" && w != ""
    ensures v[0] < w[0] ==> Precedes(v, w)
    ensures Precedes(v, w) ==> v[0] <= w[0]
  {
    assert v[..0] == w[..0];
    if Precedes(v, w) {
      var k :| 0 <= k <= |v| && k < |w| && v[..k] == w[..k] && (k < |v| ==> v[k] < w[k]);
      assert k > 0 ==> v[0] == v[..k][0] && w[0] == w[..k][0];
    }
  }

  lemma PrecedesLater(v: string, w: string)
    requires v != "" && w != "" && v[0] == w[0]
    ensures Precedes(v[1..], w[1..]) ==> Precedes(v, w)
  {
    if Precedes(v[1..], w[1..]) {
      var k :| 0 <= k <= |v[1..]| && k < |w[1..]| && v[1..][..k] == w[1..][..k] && (k < |v[1..]| ==> v[1..][k] < w[1..][k]);
      assert v[..k + 1] == [v[0]] + v[1..][..k] && w[..k + 1] == [w[0]] + w[1..][..k];
      assert k + 1 < |v| ==> v[k + 1] < w[k + 1];
    }
  }

  lemma PrecedesBefore(v: string, w: string)
    requires v != "" && w != "" && v[0] == w[0] && Precedes(v, w)
    ensures Precedes(v[1..], w[1..])
  {
    var k :| 0 <= k <= |v| && k < |w| && v[..k] == w[..k] && (k < |v| ==> v[k] < w[k]);
    assert k > 0;
    assert v[1..][..k - 1] == v[..k][1..] && w[1..][..k - 1] == w[..k][1..];
    assert k - 1 < |v[1..]| ==> v[1..][k - 1] < w[1..][k - 1];
  }

  lemma PrecedesAtEnd(v: string, w: string)
    requires v == "" || w == ""
    ensures Precedes(v, w) <==> v == "" && w != ""
  {
    assert v == "" ==> v[..0] == w[..0];
  }

  lemma {:induction false} WordLessExactly(v: string, w: string)
    ensures WordLess(v, w) <==> Precedes(v, w)
  {
    hide Precedes;
    if v == "" || w == "" {
      PrecedesAtEnd(v, w);
    } else {
      PrecedesAtOnce(v, w);
      if v[0] == w[0] {
        WordLessExactly(v[1..], w[1..]);
        PrecedesLater(v, w);
        if Precedes(v, w) {
          PrecedesBefore(v, w);
        }
      }
    }
  }

  /** Any other word is below the snapshot, and such words go by the dictionary. */
  lemma OtherWordsAreLowest(x: string, link: string, v: string, w: string)
    requires Joins(x, link) && IsWord(v) && v !in Qualifiers && IsWord(w) && w !in Qualifiers
    ensures Compare(x + link + v, x + link + "snapshot") < 0
    ensures Precedes(v, w) ==> Compare(x + link + v, x + link + w) < 0
  {
    KnownWords();
    WordLessExactly(v, w);
    assert PartOfWord(v) == Word(v) && PartOfWord(w) == Word(w);
    hide Compare, Joins, IsWord, Precedes, WordLess;
    WordsDecide(x, link, v, "snapshot");
    WordsDecide(x, link, v, w);
  }

  /** Letter case does not matter: writing some capitals as small letters gives a version that ties. */
  lemma CaseDoesNotMatter(v: string, w: string)
    requires |v| == |w|
    requires forall i :: 0 <= i < |v| ==> v[i] == w[i] || ('A' <= v[i] <= 'Z' && w[i] as int == v[i] as int + 32)
    ensures Compare(v, w) == 0
  {
    forall i | 0 <= i < |v|
      ensures LowerChar(v[i]) == LowerChar(w[i])
    {
    }
    assert Lower(v) == Lower(w);
    CompareMeaning(v, w);
  }

  /* ---------- Numbers ---------- */

  predicate IsNumber(a: string) {
    a != "" && forall c :: c in a ==> IsDigit(c)
  }

  lemma {:induction false} LongerIsGreater(a: string, b: string)
    requires (a == "" || IsNumber(a)) && IsNumber(b) && b[0] != '0' && |a| < |b|
    ensures NumberOf(a) < NumberOf(b)
    decreases |b|
  {
    var n := |b| - 1;
    assert b[0] in b && b[n] in b;
    assert forall c :: c in b[..n] ==> c in b;
    if a != "" {
      assert a[|a| - 1] in a;
      assert forall c :: c in a[..|a| - 1] ==> c in a;
      LongerIsGreater(a[..|a| - 1], b[..n]);
    } else if n > 0 {
      LongerIsGreater(a, b[..n]);
    } else {
      assert b[..0] == "";
    }
  }

  lemma {:induction false} FirstDigitDecides(a: string, b: string, k: nat)
    requires IsNumber(a) && IsNumber(b) && |a| == |b| && k < |a| && a[..k] == b[..k] && a[k] < b[k]
    ensures NumberOf(a) < NumberOf(b)
    decreases |a|
  {
    var n := |a| - 1;
    assert a[n] in a && b[n] in b;
    if k < n {
      assert forall c :: c in a[..n] ==> c in a;
      assert forall c :: c in b[..n] ==> c in b;
      assert a[..n][..k] == a[..k] && b[..n][..k] == b[..k];
      FirstDigitDecides(a[..n], b[..n], k);
    }
  }

  lemma {:induction false} ZeroInFront(a: string)
    ensures NumberOf("0" + a) == NumberOf(a)
    decreases |a|
  {
    if a == "" {
      assert "0" + a == "0" && "0"[..0] == "";
    } else {
      var n := |a| - 1;
      assert ("0" + a)[..n + 1] == "0" + a[..n];
      ZeroInFront(a[..n]);
    }
  }

  lemma PartsOfNumber(a: string)
    requires IsNumber(a)
    ensures Parts(a) == [Num(NumberOf(a))]
  {
    assert forall k :: 0 <= k < |a| ==> a[k] in a;
    assert Lower(a) == a;
    RunIs(a, 1, |a|, true);
    assert a[0..|a|] == a && PartsFrom(a, |a|) == [];
  }

  // A number may stand between x and y.
  predicate Stands(x: string, a: string, y: string) {
    IsNumber(a) && Cut(x, a) && Cut(a, y)
  }

  lemma CutParts(x: string, a: string, y: string)
    requires Stands(x, a, y)
    ensures IsNumber(a) && Cut(x, a) && Cut(x + a, y)
  {
    assert (x + a)[|x + a| - 1] == a[|a| - 1];
  }

  lemma PartsWithNumber(x: string, a: string, y: string)
    requires Stands(x, a, y)
    ensures Parts(x + a + y) == Parts(x) + [Num(NumberOf(a))] + Parts(y)
  {
    hide *;
    CutParts(x, a, y);
    PartsConcat(x, a);
    PartsConcat(x + a, y);
    PartsOfNumber(a);
  }

  lemma NumbersDecide(x: string, a: string, y: string, b: string, z: string)
    requires Stands(x, a, y) && Stands(x, b, z)
    ensures NumberOf(a) < NumberOf(b) ==> Compare(x + a + y, x + b + z) < 0
    ensures NumberOf(a) == NumberOf(b) && y == z ==> Compare(x + a + y, x + b + z) == 0
  {
    PartsWithNumber(x, a, y);
    PartsWithNumber(x, b, z);
    hide NumberOf, Parts, Compare, Stands;
    if NumberOf(a) < NumberOf(b) {
      FirstDifference(x + a + y, x + b + z, |Parts(x)|);
    } else if NumberOf(a) == NumberOf(b) && y == z {
      CompareMeaning(x + a + y, x + b + z);
    }
  }

  /** At the same place, whatever follows: of two numbers without leading zeros the longer is greater,
      equally long ones go by their first differing digit, and a leading zero makes no difference. */
  lemma NumbersByDigits(x: string, a: string, y: string, b: string, z: string)
    requires Stands(x, a, y) && Stands(x, b, z)
    ensures |a| < |b| && b[0] != '0' ==> Compare(x + a + y, x + b + z) < 0
    ensures |a| == |b| && Precedes(a, b) ==> Compare(x + a + y, x + b + z) < 0
    ensures b == "0" + a && y == z ==> Compare(x + a + y, x + b + z) == 0
  {
    hide Compare, Cut, NumberOf, Precedes, IsNumber;
    NumbersDecide(x, a, y, b, z);
    if |a| < |b| && b[0] != '0' {
      LongerIsGreater(a, b);
    }
    if b == "0" + a {
      ZeroInFront(a);
    }
    if |a| == |b| && Precedes(a, b) {
      SameLength(a, b);
    }
  }

  lemma SameLength(a: string, b: string)
    requires IsNumber(a) && IsNumber(b) && |a| == |b| && Precedes(a, b)
    ensures NumberOf(a) < NumberOf(b)
  {
    var k :| 0 <= k <= |a| && k < |b| && a[..k] == b[..k] && (k < |a| ==> a[k] < b[k]);
    FirstDigitDecides(a, b, k);
  }
}
