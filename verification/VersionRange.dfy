/**
 Version ranges (services/version_range.py): splitting a union of intervals, reading one interval,
 and testing membership. The reference is `Interval`, a denotation with no text in it.
 */
module VersionRange {
  import opened Collections
  import opened VersionOrder
  import opened VersionLaws
  import opened Text

  predicate Opens(c: char) {
    c == '[' || c == '('
  }

  predicate Closes(c: char) {
    c == ']' || c == ')'
  }

  predicate IsBracket(c: char) {
    Opens(c) || Closes(c)
  }

  /* ---------- Splitting ---------- */

  // The segments found from index i on.
  function SegmentsFrom(spec: string, i: nat, depth: int, start: nat): seq<string>
    requires start <= i <= |spec|
    decreases |spec| - i
  {
    if i == |spec| then []
    else if Opens(spec[i]) then SegmentsFrom(spec, i + 1, depth + 1, if depth == 0 then i else start)
    else if Closes(spec[i]) then
      (if depth == 1 then [spec[start..i + 1]] else []) + SegmentsFrom(spec, i + 1, depth - 1, start)
    else SegmentsFrom(spec, i + 1, depth, start)
  }

  function Segments(spec: string): seq<string> {
    var found := SegmentsFrom(spec, 0, 0, 0);
    if found == [] then [spec] else found
  }

  method SplitUnionRanges(spec: string) returns (segments: seq<string>)
    ensures segments == Segments(spec)
  {
    segments := [];
    var depth := 0;
    var start := 0;
    for index := 0 to |spec|
      invariant start <= index
      invariant segments + SegmentsFrom(spec, index, depth, start) == SegmentsFrom(spec, 0, 0, 0)
    {
      var character := spec[index];
      if Opens(character) {
        if depth == 0 {
          start := index;
        }
        depth := depth + 1;
      } else if Closes(character) {
        depth := depth - 1;
        if depth == 0 {
          ghost var rest := SegmentsFrom(spec, index + 1, depth, start);
          assert segments + ([spec[start..index + 1]] + rest) == segments + [spec[start..index + 1]] + rest;
          segments := segments + [spec[start..index + 1]];
        }
      }
    }
    if segments == [] {
      segments := [spec];
    }
  }

  /* ---------- Reading one segment ---------- */

  datatype Bound = Bound(value: Option<string>, inclusive: bool)

  function CommaAt(s: string): nat {
    if s == "" || s[0] == ',' then 0 else 1 + CommaAt(s[1..])
  }

  function BoundOf(text: string, inclusive: bool): Bound {
    Bound(if Strip(text) == "" then None else Some(Strip(text)), inclusive)
  }

  // Python's `segment[1:-1]`.
  function Inside(segment: string): string {
    if |segment| < 2 then "" else segment[1..|segment| - 1]
  }

  function ParseSegment(segment: string): (Bound, Bound) {
    var body := Inside(segment);
    var inclusiveLower := segment != "" && segment[0] == '[';
    var inclusiveUpper := segment != "" && segment[|segment| - 1] == ']';
    if ',' !in body then (BoundOf(body, true), BoundOf(body, true))
    else
      CommaInside(body);
      (BoundOf(body[..CommaAt(body)], inclusiveLower), BoundOf(body[CommaAt(body) + 1..], inclusiveUpper))
  }

  lemma {:induction false} CommaInside(s: string)
    requires ',' in s
    ensures CommaAt(s) < |s| && s[CommaAt(s)] == ',' && ',' !in s[..CommaAt(s)]
  {
    if s[0] != ',' {
      CommaInside(s[1..]);
      assert s[..CommaAt(s)] == [s[0]] + s[1..][..CommaAt(s[1..])];
    }
  }

  predicate MatchesBounds(version: string, lower: Bound, upper: Bound) {
    && (lower.value.Some? ==>
          var c := Compare(version, lower.value.value); c > 0 || (c == 0 && lower.inclusive))
    && (upper.value.Some? ==>
          var c := Compare(version, upper.value.value); c < 0 || (c == 0 && upper.inclusive))
  }

  predicate MatchesSegment(version: string, segment: string) {
    var (lower, upper) := ParseSegment(segment);
    MatchesBounds(version, lower, upper)
  }

  predicate MatchesRange(version: string, spec: string) {
    var s := Strip(spec);
    if s == "" then false
    else if !Opens(s[0]) then Compare(version, s) == 0
    else exists i :: 0 <= i < |Segments(s)| && MatchesSegment(version, Segments(s)[i])
  }

  method MatchesRangeLoop(version: string, spec: string) returns (matches: bool)
    ensures matches == MatchesRange(version, spec)
  {
    var s := Strip(spec);
    if s == "" {
      return false;
    }
    if !Opens(s[0]) {
      var c := CompareVersions(version, s);
      return c == 0;
    }
    var segments := SplitUnionRanges(s);
    for i := 0 to |segments|
      invariant forall j :: 0 <= j < i ==> !MatchesSegment(version, segments[j])
    {
      if MatchesSegment(version, segments[i]) {
        return true;
      }
    }
    return false;
  }

  /* ---------- Intervals, and their text ---------- */

  datatype Interval =
    | Between(lower: string, lowerIn: bool, upper: string, upperIn: bool)
    | Exactly(version: string, squareOpen: bool, squareClose: bool)

  predicate Plain(s: string) {
    forall c :: c in s ==> !IsBracket(c) && c != ','
  }

  // Texts of bounds carry no brackets and no commas; a blank one is no bound.
  predicate Printable(iv: Interval) {
    if iv.Between? then Plain(iv.lower) && Plain(iv.upper) else Plain(iv.version)
  }

  predicate AtLeast(version: string, bound: string, inclusive: bool) {
    Strip(bound) == "" || Compare(version, Strip(bound)) > 0 || (inclusive && Compare(version, Strip(bound)) == 0)
  }

  predicate AtMost(version: string, bound: string, inclusive: bool) {
    Strip(bound) == "" || Compare(version, Strip(bound)) < 0 || (inclusive && Compare(version, Strip(bound)) == 0)
  }

  // The versions an interval denotes.
  predicate Contains(iv: Interval, version: string) {
    match iv
    case Between(lower, lowerIn, upper, upperIn) => AtLeast(version, lower, lowerIn) && AtMost(version, upper, upperIn)
    case Exactly(v, _, _) => Strip(v) == "" || Compare(version, Strip(v)) == 0
  }

  function Body(iv: Interval): string {
    if iv.Between? then iv.lower + "," + iv.upper else iv.version
  }

  function OpenOf(iv: Interval): char {
    if (if iv.Between? then iv.lowerIn else iv.squareOpen) then '[' else '('
  }

  function CloseOf(iv: Interval): char {
    if (if iv.Between? then iv.upperIn else iv.squareClose) then ']' else ')'
  }

  function Print(iv: Interval): string {
    [OpenOf(iv)] + Body(iv) + [CloseOf(iv)]
  }

  // The texts joined by commas.
  function PrintUnion(ivs: seq<Interval>): string {
    if ivs == [] then ""
    else if |ivs| == 1 then Print(ivs[0])
    else Print(ivs[0]) + "," + PrintUnion(ivs[1..])
  }

  /* ---------- Reading back what was printed ---------- */

  lemma {:induction false} CommaFound(a: string, b: string)
    requires ',' !in a
    ensures CommaAt(a + "," + b) == |a|
  {
    var s := a + "," + b;
    if a == "" {
      assert s[0] == ',';
    } else {
      assert s[0] == a[0] && s[1..] == a[1..] + "," + b;
      CommaFound(a[1..], b);
    }
  }

  /** One printed interval is read back with its meaning. */
  lemma SegmentReadBack(iv: Interval, version: string)
    requires Printable(iv)
    ensures MatchesSegment(version, Print(iv)) <==> Contains(iv, version)
  {
    var text := Print(iv);
    assert Inside(text) == Body(iv);
    assert text[0] == OpenOf(iv) && text[|text| - 1] == CloseOf(iv);
    if iv.Between? {
      CommaFound(iv.lower, iv.upper);
      assert Body(iv)[|iv.lower|] == ',';
      assert Body(iv)[..|iv.lower|] == iv.lower && Body(iv)[|iv.lower| + 1..] == iv.upper;
    }
  }

  // Characters that are no brackets are passed over.
  lemma {:induction false} PassOver(spec: string, i: nat, j: nat, depth: int, start: nat)
    requires start <= i <= j <= |spec|
    requires forall k :: i <= k < j ==> !IsBracket(spec[k])
    ensures SegmentsFrom(spec, i, depth, start) == SegmentsFrom(spec, j, depth, start)
    decreases j - i
  {
    if i < j {
      PassOver(spec, i + 1, j, depth, start);
    }
  }

  lemma BodyHasNoBrackets(iv: Interval, k: nat)
    requires Printable(iv) && k < |Body(iv)|
    ensures !IsBracket(Body(iv)[k])
  {
    if iv.Between? {
      if k < |iv.lower| {
        assert Body(iv)[k] == iv.lower[k] && iv.lower[k] in iv.lower;
      } else if k > |iv.lower| {
        assert Body(iv)[k] == iv.upper[k - |iv.lower| - 1] && iv.upper[k - |iv.lower| - 1] in iv.upper;
      }
    } else {
      assert iv.version[k] in iv.version;
    }
  }

  // A printed interval standing at i yields itself.
  lemma SegmentFound(spec: string, i: nat, start: nat, iv: Interval)
    requires start <= i && i + |Print(iv)| <= |spec| && spec[i..i + |Print(iv)|] == Print(iv) && Printable(iv)
    ensures SegmentsFrom(spec, i, 0, start) == [Print(iv)] + SegmentsFrom(spec, i + |Print(iv)|, 0, i)
  {
    var text := Print(iv);
    var close := i + |text| - 1;
    assert forall k :: 0 <= k < |text| ==> spec[i + k] == text[k];
    assert spec[i] == text[0] && spec[close] == text[|text| - 1];
    forall k | i + 1 <= k < close
      ensures !IsBracket(spec[k])
    {
      assert spec[k] == text[k - i] && text[k - i] == Body(iv)[k - i - 1];
      BodyHasNoBrackets(iv, k - i - 1);
    }
    PassOver(spec, i + 1, close, 1, i);
  }

  function Texts(ivs: seq<Interval>): seq<string> {
    if ivs == [] then [] else [Print(ivs[0])] + Texts(ivs[1..])
  }

  lemma NothingToSplit(spec: string, i: nat, start: nat)
    requires start <= i <= |spec| && spec[i..] == PrintUnion([])
    ensures SegmentsFrom(spec, i, 0, start) == [] && Texts([]) == []
  {
    assert |spec[i..]| == 0;
  }

  lemma TextsStep(ivs: seq<Interval>)
    requires ivs != []
    ensures Texts(ivs) == [Print(ivs[0])] + Texts(ivs[1..]) && (|ivs| == 1 ==> Texts(ivs) == [Print(ivs[0])])
  {
    hide Print;
  }

  lemma {:induction false} UnionSplit(spec: string, i: nat, start: nat, ivs: seq<Interval>)
    requires start <= i <= |spec| && spec[i..] == PrintUnion(ivs) && forall iv :: iv in ivs ==> Printable(iv)
    ensures SegmentsFrom(spec, i, 0, start) == Texts(ivs)
    decreases |ivs|
  {
    hide *;
    if ivs == [] {
      NothingToSplit(spec, i, start);
    } else {
      FirstSplit(spec, i, start, ivs);
      TextsStep(ivs);
      if |ivs| > 1 {
        UnionSplit(spec, i + |Print(ivs[0])| + 1, i, ivs[1..]);
      }
    }
  }

  lemma FirstSplit(spec: string, i: nat, start: nat, ivs: seq<Interval>)
    requires start <= i <= |spec| && spec[i..] == PrintUnion(ivs) && ivs != [] && Printable(ivs[0])
    ensures var next := i + |Print(ivs[0])|;
      if |ivs| == 1 then SegmentsFrom(spec, i, 0, start) == [Print(ivs[0])]
      else
        && next < |spec| && spec[next + 1..] == PrintUnion(ivs[1..])
        && SegmentsFrom(spec, i, 0, start) == [Print(ivs[0])] + SegmentsFrom(spec, next + 1, 0, i)
  {
    var next := i + |Print(ivs[0])|;
    FirstPrinted(spec, i, ivs);
    SegmentFound(spec, i, start, ivs[0]);
    if |ivs| > 1 {
      PassOver(spec, next, next + 1, 0, i);
    }
    hide PrintUnion, Print, Printable;
  }

  lemma FirstPrinted(spec: string, i: nat, ivs: seq<Interval>)
    requires i <= |spec| && spec[i..] == PrintUnion(ivs) && ivs != []
    ensures var next := i + |Print(ivs[0])|;
      && next <= |spec| && spec[i..next] == Print(ivs[0])
      && if |ivs| == 1 then next == |spec| else next < |spec| && spec[next] == ',' && spec[next + 1..] == PrintUnion(ivs[1..])
  {
    var text := Print(ivs[0]);
    assert spec[i..][..|text|] == text;
    assert spec[i..i + |text|] == spec[i..][..|text|];
    if |ivs| > 1 {
      assert spec[i + |text|] == spec[i..][|text|];
      assert spec[i + |text| + 1..] == spec[i..][|text| + 1..] == PrintUnion(ivs[1..]);
    }
    hide Print;
  }

  lemma {:induction false} TextsAt(ivs: seq<Interval>)
    ensures |Texts(ivs)| == |ivs| && forall j :: 0 <= j < |ivs| ==> Texts(ivs)[j] == Print(ivs[j])
  {
    if ivs != [] {
      TextsAt(ivs[1..]);
    }
  }

  lemma {:induction false} UnionEnds(ivs: seq<Interval>)
    requires ivs != []
    ensures var s := PrintUnion(ivs); s != "" && Opens(s[0]) && Closes(s[|s| - 1])
  {
    if |ivs| > 1 {
      UnionEnds(ivs[1..]);
    }
  }

  /** A printed union of intervals is read back with its meaning: a version matches its text exactly
      when it lies in one of the intervals. */
  lemma UnionReadBack(ivs: seq<Interval>, version: string)
    requires forall iv :: iv in ivs ==> Printable(iv)
    ensures MatchesRange(version, PrintUnion(ivs)) <==> exists j :: 0 <= j < |ivs| && Contains(ivs[j], version)
  {
    if ivs != [] {
      SegmentsOfUnion(ivs);
      MatchesSegments(version, PrintUnion(ivs));
      hide MatchesRange, PrintUnion, Segments, Contains, Print, Printable, MatchesSegment;
      forall j | 0 <= j < |ivs|
        ensures MatchesSegment(version, Segments(PrintUnion(ivs))[j]) <==> Contains(ivs[j], version)
      {
        SegmentReadBack(ivs[j], version);
      }
    }
  }

  lemma SegmentsOfUnion(ivs: seq<Interval>)
    requires ivs != [] && forall iv :: iv in ivs ==> Printable(iv)
    ensures var spec := PrintUnion(ivs);
      && Strip(spec) == spec && spec != "" && Opens(spec[0])
      && |Segments(spec)| == |ivs| && forall j :: 0 <= j < |ivs| ==> Segments(spec)[j] == Print(ivs[j])
  {
    var spec := PrintUnion(ivs);
    UnionEnds(ivs);
    assert Strip(spec) == spec;
    assert spec[0..] == spec;
    UnionSplit(spec, 0, 0, ivs);
    TextsAt(ivs);
    hide Print, PrintUnion, Printable, Texts, SegmentsFrom;
  }

  lemma MatchesSegments(version: string, spec: string)
    requires Strip(spec) == spec && spec != "" && Opens(spec[0])
    ensures MatchesRange(version, spec) <==>
      exists j :: 0 <= j < |Segments(spec)| && MatchesSegment(version, Segments(spec)[j])
  {
    hide MatchesSegment, Segments;
  }

  /* ---------- A range that is not closed ---------- */

  // An opening bracket, two bounds, and one more character.
  function Unclosed(open: char, lower: string, upper: string, last: char): string {
    [open] + (lower + "," + upper) + [last]
  }

  lemma UnclosedIsOneSegment(open: char, lower: string, upper: string, last: char)
    requires Opens(open) && Plain(lower) && Plain(upper) && !IsBracket(last)
    ensures var spec := Unclosed(open, lower, upper, last); Segments(spec) == [spec]
  {
    var spec := Unclosed(open, lower, upper, last);
    forall k | 1 <= k < |spec|
      ensures !IsBracket(spec[k])
    {
      if k <= |lower| {
        assert spec[k] == lower[k - 1] && lower[k - 1] in lower;
      } else if |lower| + 1 < k < |spec| - 1 {
        assert spec[k] == upper[k - |lower| - 2] && upper[k - |lower| - 2] in upper;
      }
    }
    PassOver(spec, 1, |spec|, 1, 0);
    assert spec[0] == open;
  }

  lemma UnclosedReads(open: char, lower: string, upper: string, last: char, version: string)
    requires Opens(open) && Plain(lower) && Plain(upper) && !IsBracket(last)
    ensures MatchesSegment(version, Unclosed(open, lower, upper, last)) <==>
      Contains(Between(lower, open == '[', upper, false), version)
  {
    var text := Unclosed(open, lower, upper, last);
    var body := lower + "," + upper;
    assert Inside(text) == body && text[0] == open && text[|text| - 1] == last;
    CommaFound(lower, upper);
    assert body[|lower|] == ',' && body[..|lower|] == lower && body[|lower| + 1..] == upper;
  }

  lemma OneSegment(version: string, spec: string)
    requires Strip(spec) == spec && spec != "" && Opens(spec[0]) && Segments(spec) == [spec]
    ensures MatchesRange(version, spec) <==> MatchesSegment(version, spec)
  {
    hide MatchesSegment, Segments;
    assert [spec][0] == spec;
  }

  /** A range whose closing bracket is missing is read without its last character, and its upper bound is
      exclusive. */
  lemma UnclosedLosesLastCharacter(open: char, lower: string, upper: string, last: char, version: string)
    requires Opens(open) && Plain(lower) && Plain(upper) && !IsBracket(last) && !IsSpace(last)
    ensures MatchesRange(version, Unclosed(open, lower, upper, last)) <==>
      Contains(Between(lower, open == '[', upper, false), version)
  {
    var spec := Unclosed(open, lower, upper, last);
    assert spec[0] == open && spec[|spec| - 1] == last && Strip(spec) == spec;
    UnclosedIsOneSegment(open, lower, upper, last);
    UnclosedReads(open, lower, upper, last, version);
    hide *;
    OneSegment(version, spec);
  }

  /* ---------- A bare version ---------- */

  // White space in front, and a character after it that opens no interval.
  predicate Bare(spec: string) {
    exists i :: 0 <= i < |spec| && !IsSpace(spec[i]) && !Opens(spec[i]) && forall j :: 0 <= j < i ==> IsSpace(spec[j])
  }

  lemma {:induction false} StripLeftOfBare(spec: string)
    requires Bare(spec)
    ensures StripLeft(spec) != "" && !IsSpace(StripLeft(spec)[0]) && !Opens(StripLeft(spec)[0])
    ensures Parts(StripLeft(spec)) == Parts(spec)
  {
    var i :| 0 <= i < |spec| && !IsSpace(spec[i]) && !Opens(spec[i]) && forall j :: 0 <= j < i ==> IsSpace(spec[j]);
    if i > 0 {
      assert spec == [spec[0]] + spec[1..];
      SpaceIsSkipped(spec[0]);
      PartsConcat([spec[0]], spec[1..]);
      assert spec[1..][i - 1] == spec[i] && forall j :: 0 <= j < i - 1 ==> spec[1..][j] == spec[j + 1];
      assert Bare(spec[1..]);
      hide Parts, Bare, IsSpace, Opens;
      StripLeftOfBare(spec[1..]);
    }
  }

  lemma {:induction false} StripRightKeeps(spec: string)
    requires spec != "" && !IsSpace(spec[0])
    ensures StripRight(spec) != "" && StripRight(spec)[0] == spec[0] && Parts(StripRight(spec)) == Parts(spec)
  {
    var n := |spec| - 1;
    if IsSpace(spec[n]) {
      assert spec == spec[..n] + [spec[n]];
      SpaceIsSkipped(spec[n]);
      PartsConcat(spec[..n], [spec[n]]);
      hide Parts, IsSpace;
      StripRightKeeps(spec[..n]);
    }
  }

  lemma SpaceIsSkipped(c: char)
    requires IsSpace(c)
    ensures Parts([c]) == [] && !IsDigit(c) && !IsLetter(c)
  {
    assert Lower([c]) == [c];
    SeparatorsAreSkipped([c], 0);
  }

  /** A specification that opens no interval matches the versions that compare equal to its text and no
      others; white space around the text makes no difference. */
  lemma BareSpecMatchesExactly(version: string, spec: string)
    requires Bare(spec)
    ensures MatchesRange(version, spec) <==> Compare(version, spec) == 0
  {
    StripLeftOfBare(spec);
    StripRightKeeps(StripLeft(spec));
    CompareMeaning(version, spec);
    CompareMeaning(version, Strip(spec));
    hide Bare, Parts, Opens, Compare, StripLeft, StripRight, IsSpace, Segments;
  }

  /** A blank specification matches nothing. */
  lemma {:induction false} BlankSpecMatchesNothing(version: string, spec: string)
    requires forall c :: c in spec ==> IsSpace(c)
    ensures !MatchesRange(version, spec)
  {
    StripBlank(spec);
  }

  lemma {:induction false} StripBlank(spec: string)
    requires forall c :: c in spec ==> IsSpace(c)
    ensures Strip(spec) == ""
  {
    if spec != "" {
      assert spec[0] in spec;
      StripBlank(spec[1..]);
    }
  }

  /** Every interval is convex in the version order. */
  lemma IntervalConvex(iv: Interval, a: string, v: string, b: string)
    requires Contains(iv, a) && Contains(iv, b) && Compare(a, v) <= 0 && Compare(v, b) <= 0
    ensures Contains(iv, v)
  {
    match iv {
      case Between(lower, _, upper, _) =>
        Flip(a, Strip(lower));
        Flip(v, Strip(lower));
        CompareNotAbove(Strip(lower), a, v);
        CompareNotAbove(v, b, Strip(upper));
      case Exactly(w, _, _) =>
        if Strip(w) != "" {
          Flip(a, Strip(w));
          CompareNotAbove(Strip(w), a, v);
          CompareNotAbove(v, b, Strip(w));
          Flip(v, Strip(w));
        }
    }
  }

  lemma Flip(a: string, b: string)
    ensures Compare(a, b) == -Compare(b, a)
  {
    CompareAntisymmetric(a, b);
  }

  lemma CompareNotAbove(a: string, b: string, c: string)
    ensures Compare(a, b) <= 0 && Compare(b, c) <= 0 ==> Compare(a, c) <= 0
    ensures Compare(a, b) <= 0 && Compare(b, c) <= 0 && Compare(a, c) == 0 ==> Compare(a, b) == 0 && Compare(b, c) == 0
  {
    if Compare(a, b) <= 0 && Compare(b, c) <= 0 {
      CompareTransitive(a, b, c);
    }
  }

  /** No range specification, well formed or not, tells versions apart that compare equal. */
  lemma RangesRespectOrder(v: string, w: string, spec: string)
    requires Compare(v, w) == 0
    ensures MatchesRange(v, spec) <==> MatchesRange(w, spec)
  {
    forall bound: string
      ensures Compare(v, bound) == Compare(w, bound)
    {
      EqualsCompareAlike(v, w, bound);
    }
    assert forall segment :: MatchesSegment(v, segment) <==> MatchesSegment(w, segment);
  }

  lemma EqualsCompareAlike(v: string, w: string, bound: string)
    requires Compare(v, w) == 0
    ensures Compare(v, bound) == Compare(w, bound)
  {
    CompareMeaning(v, w);
    CompareMeaning(v, bound);
    CompareMeaning(w, bound);
    var pv, pw, pb := Parts(v), Parts(w), Parts(bound);
    assert SameParts(pw, pv);
    if Below(pv, pb) {
      BelowTransitive(pw, pv, pb);
    } else if Below(pb, pv) {
      BelowTransitive(pb, pv, pw);
    } else {
      assert SameParts(pw, pb);
    }
  }
}
