/**
 Similarity scores between public symbols, the ranking of replacement candidates, and the splitter
 for parameter lists (tough_path/symbol_mapper.py). Scores are reals; rounding is to four decimals.
 */
module SymbolMapper {
  import opened Collections

  // A symbol with its name split into lower-case tokens, its parameter types, and its package split
  // at the dots (empty when there is none).
  datatype Symbol = Symbol(kind: string, fqn: string, tokens: set<string>, parameters: seq<string>, package: seq<string>)

  datatype Candidate = Candidate(symbol: Symbol, name: real, signature: real, package: real, confidence: real)

  /* ---------- Component scores ---------- */

  function Jaccard(left: set<string>, right: set<string>): real {
    if left + right == {} then 0.0 else |left * right| as real / |left + right| as real
  }

  function Agreements(left: seq<string>, right: seq<string>): nat
    requires |left| == |right|
  {
    if left == [] then 0
    else Agreements(left[1..], right[1..]) + (if left[0] == right[0] then 1 else 0)
  }

  function SignatureScore(left: seq<string>, right: seq<string>): real {
    if left == [] && right == [] then 1.0
    else if |left| != |right| then 0.0
    else Agreements(left, right) as real / |left| as real
  }

  function CommonPrefix(left: seq<string>, right: seq<string>): nat {
    if left == [] || right == [] || left[0] != right[0] then 0 else 1 + CommonPrefix(left[1..], right[1..])
  }

  function Longer(left: seq<string>, right: seq<string>): nat {
    if |left| >= |right| then |left| else |right|
  }

  function PackageScore(left: seq<string>, right: seq<string>): real {
    if left == [] || right == [] then 0.0
    else if left == right then 1.0
    else CommonPrefix(left, right) as real / Longer(left, right) as real
  }

  method CountMatches(left: seq<string>, right: seq<string>) returns (matches: nat)
    requires |left| == |right|
    ensures matches == Agreements(left, right)
  {
    matches := 0;
    for i := 0 to |left|
      invariant matches + Agreements(left[i..], right[i..]) == Agreements(left, right)
    {
      assert left[i..][1..] == left[i + 1..] && right[i..][1..] == right[i + 1..];
      if left[i] == right[i] {
        matches := matches + 1;
      }
    }
  }

  method ComputePackageScore(left: seq<string>, right: seq<string>) returns (score: real)
    ensures score == PackageScore(left, right)
  {
    if left == [] || right == [] {
      return 0.0;
    }
    if left == right {
      return 1.0;
    }
    var common := 0;
    while common < |left| && common < |right|
      invariant common <= |left| && common <= |right|
      invariant common + CommonPrefix(left[common..], right[common..]) == CommonPrefix(left, right)
    {
      assert left[common..][1..] == left[common + 1..] && right[common..][1..] == right[common + 1..];
      if left[common] != right[common] {
        break;
      }
      common := common + 1;
    }
    if common == 0 {
      return 0.0;
    }
    return common as real / Longer(left, right) as real;
  }

  // round(x, 4)
  function Round4(x: real): real {
    (x * 10000.0 + 0.5).Floor as real / 10000.0
  }

  function Confidence(name: real, signature: real, package: real): real {
    Round4(0.6 * name + 0.3 * signature + 0.1 * package)
  }

  function Score(legacy: Symbol, symbol: Symbol): Candidate {
    var name := Jaccard(legacy.tokens, symbol.tokens);
    var signature := SignatureScore(legacy.parameters, symbol.parameters);
    var package := PackageScore(legacy.package, symbol.package);
    Candidate(symbol, name, signature, package, Confidence(name, signature, package))
  }

  predicate Fraction(x: real) {
    0.0 <= x <= 1.0
  }

  predicate Rounded(x: real) {
    (x * 10000.0).Floor as real == x * 10000.0
  }

  lemma QuotientIsFraction(a: nat, b: nat)
    requires a <= b && b > 0
    ensures Fraction(a as real / b as real)
  {
    assert a as real / b as real * b as real == a as real;
    assert a as real <= b as real;
  }

  lemma {:induction false} AgreementsBounds(left: seq<string>, right: seq<string>)
    requires |left| == |right|
    ensures Agreements(left, right) <= |left| && Agreements(left, right) == Agreements(right, left)
    ensures Agreements(left, right) == |left| <==> left == right
  {
    if left != [] {
      AgreementsBounds(left[1..], right[1..]);
      assert left == [left[0]] + left[1..] && right == [right[0]] + right[1..];
    }
  }

  lemma {:induction false} CommonPrefixBounds(left: seq<string>, right: seq<string>)
    ensures var n := CommonPrefix(left, right);
      && n <= |left| && n <= |right| && n == CommonPrefix(right, left) && left[..n] == right[..n]
      && (n < |left| && n < |right| ==> left[n] != right[n])
  {
    if !(left == [] || right == [] || left[0] != right[0]) {
      CommonPrefixBounds(left[1..], right[1..]);
      var n := CommonPrefix(left[1..], right[1..]);
      assert left[..n + 1] == [left[0]] + left[1..][..n] && right[..n + 1] == [right[0]] + right[1..][..n];
    }
  }

  lemma RoundMonotone(x: real, y: real)
    requires x <= y
    ensures Round4(x) <= Round4(y)
  {
    assert x * 10000.0 + 0.5 <= y * 10000.0 + 0.5;
    FloorMonotone(x * 10000.0 + 0.5, y * 10000.0 + 0.5);
  }

  lemma FloorMonotone(x: real, y: real)
    requires x <= y
    ensures x.Floor <= y.Floor
  {
  }

  /** Rounding moves a number by half a unit of the fourth decimal at most. */
  lemma RoundIsNearest(x: real)
    ensures -0.00005 <= Round4(x) - x <= 0.00005
  {
    var n := (x * 10000.0 + 0.5).Floor;
    assert n as real <= x * 10000.0 + 0.5 < n as real + 1.0;
    assert Round4(x) * 10000.0 == n as real;
  }

  lemma RoundFixes(x: real)
    ensures Rounded(Round4(x)) && (Rounded(x) ==> Round4(x) == x)
  {
    var n := (x * 10000.0 + 0.5).Floor;
    assert Round4(x) * 10000.0 == n as real;
    if Rounded(x) {
      var m := (x * 10000.0).Floor;
      assert (m as real + 0.5).Floor == m;
    }
  }

  /** Every component score and the rounded confidence lie in the unit interval. */
  lemma ScoresAreFractions(legacy: Symbol, symbol: Symbol)
    ensures var c := Score(legacy, symbol);
      Fraction(c.name) && Fraction(c.signature) && Fraction(c.package) && Fraction(c.confidence) && Rounded(c.confidence)
  {
    var c := Score(legacy, symbol);
    if legacy.tokens + symbol.tokens != {} {
      SubsetSize(legacy.tokens * symbol.tokens, legacy.tokens + symbol.tokens);
      assert |legacy.tokens + symbol.tokens| > 0;
      QuotientIsFraction(|legacy.tokens * symbol.tokens|, |legacy.tokens + symbol.tokens|);
    }
    if |legacy.parameters| == |symbol.parameters| > 0 {
      AgreementsBounds(legacy.parameters, symbol.parameters);
      QuotientIsFraction(Agreements(legacy.parameters, symbol.parameters), |legacy.parameters|);
    }
    if legacy.package != [] && symbol.package != [] {
      CommonPrefixBounds(legacy.package, symbol.package);
      QuotientIsFraction(CommonPrefix(legacy.package, symbol.package), Longer(legacy.package, symbol.package));
    }
    hide Jaccard, SignatureScore, PackageScore;
    MixIsFraction(c.name, c.signature, c.package);
  }

  lemma MixIsFraction(name: real, signature: real, package: real)
    requires Fraction(name) && Fraction(signature) && Fraction(package)
    ensures Fraction(Confidence(name, signature, package)) && Rounded(Confidence(name, signature, package))
  {
    var mix := 0.6 * name + 0.3 * signature + 0.1 * package;
    assert 0.0 <= mix <= 1.0;
    RoundMonotone(0.0, mix);
    RoundMonotone(mix, 1.0);
    RoundFixes(0.0);
    RoundFixes(1.0);
    RoundFixes(mix);
    assert Rounded(0.0) && Rounded(1.0);
  }

  lemma {:induction false} SubsetSize<T>(a: set<T>, b: set<T>)
    requires a <= b
    ensures |a| <= |b|
    decreases a
  {
    if a != {} {
      var x :| x in a;
      SubsetSize(a - {x}, b - {x});
    }
  }

  /** The similarity of two symbols does not depend on which one is the legacy one. */
  lemma ScoreIsSymmetric(a: Symbol, b: Symbol)
    ensures Score(a, b).(symbol := a) == Score(b, a)
  {
    assert a.tokens + b.tokens == b.tokens + a.tokens && a.tokens * b.tokens == b.tokens * a.tokens;
    if |a.parameters| == |b.parameters| {
      AgreementsBounds(a.parameters, b.parameters);
    }
    CommonPrefixBounds(a.package, b.package);
    hide Confidence;
  }

  // No position of equally long lists agrees, or the lists differ in length.
  predicate ParametersApart(left: Symbol, right: Symbol) {
    || |left.parameters| != |right.parameters|
    || (left.parameters != [] && forall i :: 0 <= i < |left.parameters| ==> left.parameters[i] != right.parameters[i])
  }

  predicate PackagesApart(left: Symbol, right: Symbol) {
    left.package == [] || right.package == [] || left.package[0] != right.package[0]
  }

  lemma AllAndNone(n: nat)
    requires n > 0
    ensures n as real / n as real == 1.0 && 0 as real / n as real == 0.0
  {
  }

  lemma NameScoreExactly(left: Symbol, right: Symbol)
    ensures left.tokens == right.tokens != {} ==> Jaccard(left.tokens, right.tokens) == 1.0
    ensures left.tokens !! right.tokens ==> Jaccard(left.tokens, right.tokens) == 0.0
  {
    var n := |left.tokens + right.tokens|;
    if n > 0 {
      AllAndNone(n);
    }
    assert left.tokens == right.tokens ==> left.tokens * right.tokens == left.tokens + right.tokens == left.tokens;
    assert left.tokens !! right.tokens ==> left.tokens * right.tokens == {};
  }

  lemma {:induction false} NoAgreements(left: seq<string>, right: seq<string>)
    requires |left| == |right| && forall i :: 0 <= i < |left| ==> left[i] != right[i]
    ensures Agreements(left, right) == 0
  {
    if left != [] {
      NoAgreements(left[1..], right[1..]);
    }
  }

  lemma SignatureScoreExactly(left: Symbol, right: Symbol)
    ensures left.parameters == right.parameters ==> SignatureScore(left.parameters, right.parameters) == 1.0
    ensures ParametersApart(left, right) ==> SignatureScore(left.parameters, right.parameters) == 0.0
  {
    if |left.parameters| == |right.parameters| > 0 {
      AllAndNone(|left.parameters|);
      AgreementsBounds(left.parameters, right.parameters);
      if left.parameters != right.parameters && ParametersApart(left, right) {
        NoAgreements(left.parameters, right.parameters);
      }
    }
    hide Agreements;
  }

  lemma PackageScoreExactly(left: Symbol, right: Symbol)
    ensures left.package == right.package != [] ==> PackageScore(left.package, right.package) == 1.0
    ensures PackagesApart(left, right) ==> PackageScore(left.package, right.package) == 0.0
  {
    if left.package != [] && right.package != [] && left.package != right.package {
      AllAndNone(Longer(left.package, right.package));
      assert PackagesApart(left, right) ==> CommonPrefix(left.package, right.package) == 0;
    }
  }

  /** The name score is the share of the common tokens among all tokens of both names. */
  lemma NameScoreOfShares(own: set<string>, common: set<string>, other: set<string>)
    requires own !! common && own !! other && common !! other && own + common + other != {}
    ensures Jaccard(own + common, common + other) == |common| as real / (|own| + |common| + |other|) as real
  {
    var left, right := own + common, common + other;
    assert left * right == common && left + right == own + common + other;
    assert |own + common + other| == |own| + |common| + |other|;
  }

  /** Agreements are counted position by position: one for equal types, none for different ones, and those
      of joined lists add up. The signature score of equally long lists is their share of the positions. */
  lemma {:induction false} AgreementsAddUp(a: seq<string>, b: seq<string>, c: seq<string>, d: seq<string>)
    requires |a| == |b| && |c| == |d|
    ensures Agreements(a + c, b + d) == Agreements(a, b) + Agreements(c, d)
    ensures |a| == 1 ==> Agreements(a, b) == if a[0] == b[0] then 1 else 0
    ensures a != [] ==> SignatureScore(a, b) == Agreements(a, b) as real / |a| as real
  {
    if a == [] {
      assert a + c == c && b + d == d;
    } else {
      assert (a + c)[1..] == a[1..] + c && (b + d)[1..] == b[1..] + d;
      AgreementsAddUp(a[1..], b[1..], c, d);
    }
  }

  /** The package score is the length of the common front over that of the longer package. */
  lemma PackageScoreOfFront(front: seq<string>, left: seq<string>, right: seq<string>)
    requires front != [] && (left == [] || right == [] || left[0] != right[0])
    ensures PackageScore(front + left, front + right) ==
      |front| as real / (|front| + if |left| >= |right| then |left| else |right|) as real
  {
    FrontIsCommon(front, left, right);
    AllAndNone(|front|);
    if front + left == front + right {
      assert left == (front + left)[|front|..] == (front + right)[|front|..] == right;
    }
  }

  lemma {:induction false} FrontIsCommon(front: seq<string>, left: seq<string>, right: seq<string>)
    requires left == [] || right == [] || left[0] != right[0]
    ensures CommonPrefix(front + left, front + right) == |front|
  {
    if front == [] {
      assert front + left == left && front + right == right;
    } else {
      assert (front + left)[1..] == front[1..] + left && (front + right)[1..] == front[1..] + right;
      FrontIsCommon(front[1..], left, right);
    }
  }

  /** A symbol that shares the whole name and nothing else is ranked above one that shares all of the
      rest and no part of the name. */
  lemma NameOutweighsTheRest(legacy: Symbol, named: Symbol, other: Symbol)
    requires named.tokens == legacy.tokens != {} && ParametersApart(legacy, named) && PackagesApart(legacy, named)
    requires other.tokens !! legacy.tokens && other.parameters == legacy.parameters && other.package == legacy.package != []
    ensures Score(legacy, named).confidence == 0.6 && Score(legacy, other).confidence == 0.4
  {
    WeighedExactly(legacy, named);
    WeighedExactly(legacy, other);
  }

  /** So does, without a shared name, one that shares the parameters over one that shares the package. */
  lemma ParametersOutweighThePackage(legacy: Symbol, called: Symbol, placed: Symbol)
    requires called.tokens !! legacy.tokens && called.parameters == legacy.parameters && PackagesApart(legacy, called)
    requires placed.tokens !! legacy.tokens && ParametersApart(legacy, placed) && placed.package == legacy.package != []
    ensures Score(legacy, called).confidence == 0.3 && Score(legacy, placed).confidence == 0.1
  {
    WeighedExactly(legacy, called);
    WeighedExactly(legacy, placed);
  }

  lemma WeighedExactly(legacy: Symbol, symbol: Symbol)
    ensures var c := Score(legacy, symbol).confidence;
      && (legacy.tokens == symbol.tokens != {} && ParametersApart(legacy, symbol) && PackagesApart(legacy, symbol) ==> c == 0.6)
      && (legacy.tokens !! symbol.tokens && legacy.package == symbol.package != [] ==>
            && (legacy.parameters == symbol.parameters ==> c == 0.4)
            && (ParametersApart(legacy, symbol) ==> c == 0.1))
      && (legacy.tokens !! symbol.tokens && legacy.parameters == symbol.parameters && PackagesApart(legacy, symbol) ==> c == 0.3)
  {
    hide Jaccard, SignatureScore, PackageScore, ParametersApart, PackagesApart, Round4;
    NameScoreExactly(legacy, symbol);
    SignatureScoreExactly(legacy, symbol);
    PackageScoreExactly(legacy, symbol);
    RoundedTenths();
  }

  lemma RoundedTenths()
    ensures Round4(0.6) == 0.6 && Round4(0.4) == 0.4 && Round4(0.3) == 0.3 && Round4(0.1) == 0.1
  {
    assert Rounded(0.6) && Rounded(0.4) && Rounded(0.3) && Rounded(0.1);
    RoundFixes(0.6);
    RoundFixes(0.4);
    RoundFixes(0.3);
    RoundFixes(0.1);
  }

  /* ---------- Ranking ---------- */

  predicate Eligible(legacy: Symbol, symbol: Symbol) {
    symbol.kind == legacy.kind && Score(legacy, symbol).confidence > 0.0
  }

  function Scored(legacy: Symbol, symbols: seq<Symbol>): seq<Candidate> {
    if symbols == [] then []
    else
      var n := |symbols| - 1;
      Scored(legacy, symbols[..n]) + (if Eligible(legacy, symbols[n]) then [Score(legacy, symbols[n])] else [])
  }

  // Behind every candidate that is at least as good.
  function InsertRanked(c: Candidate, ranked: seq<Candidate>): seq<Candidate> {
    if ranked == [] || ranked[0].confidence < c.confidence then [c] + ranked
    else [ranked[0]] + InsertRanked(c, ranked[1..])
  }

  // The stable sort by falling confidence.
  function Ranked(scored: seq<Candidate>): seq<Candidate> {
    if scored == [] then [] else InsertRanked(Last(scored), Ranked(scored[..|scored| - 1]))
  }

  predicate Falling(ranked: seq<Candidate>) {
    forall i, j :: 0 <= i < j < |ranked| ==> ranked[i].confidence >= ranked[j].confidence
  }

  method MapSymbol(legacy: Symbol, symbols: seq<Symbol>, topK: nat) returns (top: seq<Candidate>)
    ensures var ranked := Ranked(Scored(legacy, symbols)); top == if topK <= |ranked| then ranked[..topK] else ranked
  {
    var ranked: seq<Candidate> := [];
    ghost var scored: seq<Candidate> := [];
    for i := 0 to |symbols|
      invariant scored == Scored(legacy, symbols[..i])
      invariant ranked == Ranked(scored)
    {
      assert symbols[..i + 1][..i] == symbols[..i];
      var symbol := symbols[i];
      if symbol.kind != legacy.kind {
        continue;
      }
      var candidate := Score(legacy, symbol);
      if candidate.confidence <= 0.0 {
        continue;
      }
      ranked := InsertRanked(candidate, ranked);
      ghost var longer := scored + [candidate];
      assert longer[..|longer| - 1] == scored;
      scored := longer;
    }
    assert symbols[..|symbols|] == symbols;
    top := if topK <= |ranked| then ranked[..topK] else ranked;
  }

  lemma FallingCons(c: Candidate, ranked: seq<Candidate>)
    requires Falling(ranked) && (ranked != [] ==> c.confidence >= ranked[0].confidence)
    ensures Falling([c] + ranked) && multiset([c] + ranked) == multiset{c} + multiset(ranked)
  {
  }

  lemma FallingTail(ranked: seq<Candidate>)
    requires Falling(ranked) && ranked != []
    ensures Falling(ranked[1..]) && (|ranked| > 1 ==> ranked[0].confidence >= ranked[1].confidence)
    ensures multiset(ranked) == multiset{ranked[0]} + multiset(ranked[1..])
  {
    assert ranked == [ranked[0]] + ranked[1..];
  }

  lemma InsertStep(c: Candidate, ranked: seq<Candidate>)
    ensures InsertRanked(c, ranked) ==
      if ranked == [] || ranked[0].confidence < c.confidence then [c] + ranked else [ranked[0]] + InsertRanked(c, ranked[1..])
    ensures InsertRanked(c, ranked) != []
    ensures InsertRanked(c, ranked)[0] == c || (ranked != [] && InsertRanked(c, ranked)[0] == ranked[0])
  {
  }

  lemma SameMembers(inserted: seq<Candidate>, c: Candidate, ranked: seq<Candidate>)
    requires multiset(inserted) == multiset(ranked) + multiset{c}
    ensures forall x :: x in inserted <==> x == c || x in ranked
  {
    forall x
      ensures x in inserted <==> x == c || x in ranked
    {
      assert x in inserted <==> x in multiset(inserted);
    }
  }

  lemma {:induction false} InsertKeepsFalling(c: Candidate, ranked: seq<Candidate>)
    requires Falling(ranked)
    ensures Falling(InsertRanked(c, ranked))
    ensures forall x :: x in InsertRanked(c, ranked) <==> x == c || x in ranked
    ensures multiset(InsertRanked(c, ranked)) == multiset(ranked) + multiset{c}
  {
    hide *;
    InsertStep(c, ranked);
    if ranked == [] || ranked[0].confidence < c.confidence {
      FallingCons(c, ranked);
    } else {
      FallingTail(ranked);
      InsertKeepsFalling(c, ranked[1..]);
      InsertStep(c, ranked[1..]);
      FallingCons(ranked[0], InsertRanked(c, ranked[1..]));
    }
    SameMembers(InsertRanked(c, ranked), c, ranked);
  }

  lemma {:induction false} RankedIsSorted(scored: seq<Candidate>)
    ensures Falling(Ranked(scored)) && multiset(Ranked(scored)) == multiset(scored)
  {
    if scored != [] {
      var front := scored[..|scored| - 1];
      RankedIsSorted(front);
      InsertKeepsFalling(Last(scored), Ranked(front));
      assert scored == front + [Last(scored)];
    }
  }

  // The list's first candidate with the highest confidence.
  predicate FirstBest(scored: seq<Candidate>, i: nat) {
    && i < |scored|
    && (forall j :: 0 <= j < |scored| ==> scored[j].confidence <= scored[i].confidence)
    && forall j :: 0 <= j < i ==> scored[j].confidence < scored[i].confidence
  }

  lemma {:induction false} RankedStartsWithFirstBest(scored: seq<Candidate>) returns (i: nat)
    requires scored != []
    ensures FirstBest(scored, i) && Ranked(scored) != [] && Ranked(scored)[0] == scored[i]
  {
    var n := |scored| - 1;
    if n == 0 {
      i := 0;
      assert Ranked(scored[..0]) == [];
    } else {
      i := RankedStartsWithFirstBest(scored[..n]);
      assert forall j :: 0 <= j < n ==> scored[..n][j] == scored[j];
      if scored[i].confidence < scored[n].confidence {
        i := n;
      }
      hide Ranked;
      RankedLast(scored);
    }
  }

  lemma RankedLast(scored: seq<Candidate>)
    requires scored != []
    ensures Ranked(scored) == InsertRanked(Last(scored), Ranked(scored[..|scored| - 1]))
  {
  }

  /** Only symbols of the same kind with a positive confidence are ranked, each with its own score. */
  lemma RankedSuit(legacy: Symbol, symbols: seq<Symbol>, c: Candidate)
    requires c in Ranked(Scored(legacy, symbols))
    ensures c.symbol in symbols && c == Score(legacy, c.symbol)
    ensures c.symbol.kind == legacy.kind && c.confidence > 0.0
  {
    var scored := Scored(legacy, symbols);
    var origin := ScoredFrom(legacy, symbols);
    RankedIsSorted(scored);
    assert c in multiset(Ranked(scored));
    var m :| 0 <= m < |scored| && scored[m] == c;
    hide Ranked, Scored, Jaccard, SignatureScore, PackageScore, Confidence;
  }

  /** The best candidate is the earliest of the same-kind symbols no other one beats, and there is one
      exactly when some same-kind symbol has a positive confidence. */
  lemma BestIsMaximal(legacy: Symbol, symbols: seq<Symbol>)
    ensures Ranked(Scored(legacy, symbols)) == [] <==>
      forall s :: s in symbols ==> s.kind != legacy.kind || Score(legacy, s).confidence <= 0.0
    ensures Ranked(Scored(legacy, symbols)) != [] ==>
      exists i :: 0 <= i < |symbols| && Ranked(Scored(legacy, symbols))[0] == Score(legacy, symbols[i])
        && symbols[i].kind == legacy.kind && Score(legacy, symbols[i]).confidence > 0.0
        && forall j :: 0 <= j < |symbols| && symbols[j].kind == legacy.kind ==>
            && Score(legacy, symbols[j]).confidence <= Score(legacy, symbols[i]).confidence
            && (j < i ==> Score(legacy, symbols[j]).confidence < Score(legacy, symbols[i]).confidence)
  {
    hide Ranked, Scored, Score;
    var scored := Scored(legacy, symbols);
    var origin := ScoredFrom(legacy, symbols);
    RankedIsSorted(scored);
    SameSize(Ranked(scored), scored);
    if scored != [] {
      var b := RankedStartsWithFirstBest(scored);
      var i := origin[b];
      forall j | 0 <= j < |symbols| && symbols[j].kind == legacy.kind
        ensures Score(legacy, symbols[j]).confidence <= Score(legacy, symbols[i]).confidence
        ensures j < i ==> Score(legacy, symbols[j]).confidence < Score(legacy, symbols[i]).confidence
      {
        if Eligible(legacy, symbols[j]) {
          var m :| 0 <= m < |origin| && origin[m] == j;
        }
      }
    }
  }

  lemma SameSize<T>(a: seq<T>, b: seq<T>)
    requires multiset(a) == multiset(b)
    ensures |a| == |b|
  {
    assert |multiset(a)| == |a| && |multiset(b)| == |b|;
  }

  lemma ScoredStep(legacy: Symbol, symbols: seq<Symbol>)
    ensures symbols == [] ==> Scored(legacy, symbols) == []
    ensures symbols != [] ==>
      var n := |symbols| - 1;
      Scored(legacy, symbols) ==
        Scored(legacy, symbols[..n]) + (if Eligible(legacy, symbols[n]) then [Score(legacy, symbols[n])] else [])
  {
    hide Score, Eligible;
  }

  // Where each scored candidate stands in the list of symbols.
  lemma {:induction false} ScoredFrom(legacy: Symbol, symbols: seq<Symbol>) returns (origin: seq<nat>)
    ensures |origin| == |Scored(legacy, symbols)|
    ensures forall m :: 0 <= m < |origin| ==>
      && origin[m] < |symbols| && Eligible(legacy, symbols[origin[m]])
      && Scored(legacy, symbols)[m] == Score(legacy, symbols[origin[m]])
    ensures forall m, n :: 0 <= m < n < |origin| ==> origin[m] < origin[n]
    ensures forall j :: 0 <= j < |symbols| && Eligible(legacy, symbols[j]) ==> j in origin
  {
    hide *;
    ScoredStep(legacy, symbols);
    origin := [];
    if symbols != [] {
      var n := |symbols| - 1;
      var before := ScoredFrom(legacy, symbols[..n]);
      assert forall j :: 0 <= j < n ==> symbols[..n][j] == symbols[j];
      origin := before;
      if Eligible(legacy, symbols[n]) {
        origin := before + [n];
        assert forall j :: j in before ==> j in origin;
        assert origin[|before|] == n;
      }
    }
  }

  /* ---------- Reconciling with an outside confidence ---------- */

  function Clamp(x: real): real {
    if x < 0.0 then 0.0 else if x > 1.0 then 1.0 else x
  }

  function Capped(confidence: real, llm: real): real {
    Round4(if confidence <= Clamp(llm) then confidence else Clamp(llm))
  }

  function Reconcile(top: seq<Candidate>, llm: real): seq<Candidate> {
    if top == [] then top else [top[0].(confidence := Capped(top[0].confidence, llm))] + top[1..]
  }

  /** For rounded confidences in the unit interval, reconciling takes the smaller of the deterministic
      confidence and the rounded outside one; nothing else changes, and nothing is ever raised. */
  lemma ReconcileNeverRaises(top: seq<Candidate>, llm: real)
    requires forall c :: c in top ==> Fraction(c.confidence) && Rounded(c.confidence)
    ensures |Reconcile(top, llm)| == |top|
    ensures forall i :: 0 <= i < |top| ==> Reconcile(top, llm)[i].confidence <= top[i].confidence
    ensures top != [] ==>
      Reconcile(top, llm)[0].confidence ==
        if top[0].confidence <= Round4(Clamp(llm)) then top[0].confidence else Round4(Clamp(llm))
    ensures top != [] ==> Fraction(Reconcile(top, llm)[0].confidence)
    ensures Fraction(llm) ==> Clamp(llm) == llm
  {
    if top != [] {
      RoundFixes(0.0);
      assert Rounded(0.0) && Round4(0.0) == 0.0;
      RoundMonotone(0.0, Clamp(llm));
      var own, other := top[0].confidence, Clamp(llm);
      RoundFixes(own);
      if own <= other {
        RoundMonotone(own, other);
      } else {
        RoundMonotone(other, own);
      }
      hide Round4;
    }
  }

  /** The list stays in order of confidence exactly when the rounded outside confidence is not below
      the runner-up's: the capped best keeps the first place either way. */
  lemma ReconcileKeepsOrderExactly(top: seq<Candidate>, llm: real)
    requires Falling(top) && forall c :: c in top ==> Fraction(c.confidence) && Rounded(c.confidence)
    ensures Falling(Reconcile(top, llm)) <==> |top| < 2 || top[1].confidence <= Round4(Clamp(llm))
  {
    ReconcileNeverRaises(top, llm);
    hide Round4, Clamp;
    if |top| >= 2 {
      var reconciled := Reconcile(top, llm);
      assert forall i :: 1 <= i < |top| ==> reconciled[i] == top[i];
      assert reconciled[0].confidence >= top[1].confidence <==> top[1].confidence <= Round4(Clamp(llm));
    }
  }

  /** Such a list arises: of a symbol and its namesake in another package, an outside confidence of
      one half puts the symbol itself below the namesake, and leaves it in first place. */
  lemma CappedBestStaysFirst(token: string, package: string)
    ensures var same := Symbol("method", "same", {token}, [], [package]);
      var namesake := Symbol("method", "namesake", {token}, [], []);
      var top := Reconcile(Ranked(Scored(same, [same, namesake])), 0.5);
      |top| == 2 && top[0].symbol == same && top[0].confidence < top[1].confidence && !Falling(top)
  {
    var same := Symbol("method", "same", {token}, [], [package]);
    var namesake := Symbol("method", "namesake", {token}, [], []);
    var first, second := Score(same, same), Score(same, namesake);
    NameScores(token);
    RoundFixes(1.0);
    RoundFixes(0.9);
    RoundFixes(0.5);
    assert Rounded(1.0) && Rounded(0.9) && Rounded(0.5);
    assert first.confidence == 1.0 && second.confidence == 0.9;
    RankedOfTwo(same, same, namesake);
    var top := Reconcile([first, second], 0.5);
    hide Round4;
    assert top == [first.(confidence := 0.5), second];
  }

  lemma NameScores(token: string)
    ensures Jaccard({token}, {token}) == 1.0
  {
    assert {token} + {token} == {token} && {token} * {token} == {token};
  }

  lemma RankedOfTwo(legacy: Symbol, a: Symbol, b: Symbol)
    requires Eligible(legacy, a) && Eligible(legacy, b) && Score(legacy, a).confidence >= Score(legacy, b).confidence
    ensures Ranked(Scored(legacy, [a, b])) == [Score(legacy, a), Score(legacy, b)]
  {
    hide Score, Eligible;
    var first, second := Score(legacy, a), Score(legacy, b);
    assert [a, b][..1] == [a] && [a][..0] == [];
    assert Scored(legacy, [a]) == [first];
    assert Scored(legacy, [a, b]) == [first, second];
    assert [first, second][..1] == [first] && [first][..0] == [];
    assert Ranked([first]) == [first];
    assert InsertRanked(second, [first]) == [first] + InsertRanked(second, [first][1..]);
    assert [first][1..] == [];
  }

  /* ---------- Splitting parameter lists ---------- */

  // Nesting in `<...>` after one more character; a stray `>` is ignored.
  function Nesting(depth: nat, ch: char): nat {
    if ch == '<' then depth + 1 else if ch == '>' && depth > 0 then depth - 1 else depth
  }

  function Nested(depth: nat, s: string): nat
    decreases |s|
  {
    if s == [] then depth else Nested(Nesting(depth, s[0]), s[1..])
  }

  // The pieces of the rest of the text, the first one already begun.
  function Pieces(rest: string, depth: nat, current: string): seq<string>
    decreases |rest|
  {
    if rest == [] then (if current == [] then [] else [current])
    else
      var d := Nesting(depth, rest[0]);
      if rest[0] == ',' && d == 0 then [current] + Pieces(rest[1..], d, "")
      else Pieces(rest[1..], d, current + [rest[0]])
  }

  function SplitTopLevel(body: string): seq<string> {
    Pieces(body, 0, "")
  }

  method SplitTopLevelLoop(body: string) returns (pieces: seq<string>)
    ensures pieces == SplitTopLevel(body)
  {
    pieces := [];
    var depth: nat := 0;
    var current: string := "";
    for i := 0 to |body|
      invariant pieces + Pieces(body[i..], depth, current) == SplitTopLevel(body)
    {
      var ch := body[i];
      assert body[i..][0] == ch && body[i..][1..] == body[i + 1..];
      NestingStep(body[i..], depth, current);
      hide Pieces, SplitTopLevel, Nesting;
      if ch == '<' {
        depth := depth + 1;
      } else if ch == '>' && depth > 0 {
        depth := depth - 1;
      }
      if ch == ',' && depth == 0 {
        OneMore(pieces, current, Pieces(body[i + 1..], depth, ""));
        pieces := pieces + [current];
        current := "";
        continue;
      }
      current := current + [ch];
    }
    if current != "" {
      pieces := pieces + [current];
    }
  }

  lemma NestingStep(rest: string, depth: nat, current: string)
    requires rest != []
    ensures var ch := rest[0];
      var d: nat := if ch == '<' then depth + 1 else if ch == '>' && depth > 0 then depth - 1 else depth;
      Pieces(rest, depth, current) ==
        if ch == ',' && d == 0 then [current] + Pieces(rest[1..], d, "") else Pieces(rest[1..], d, current + [ch])
  {
  }

  lemma OneMore(pieces: seq<string>, current: string, rest: seq<string>)
    ensures pieces + ([current] + rest) == pieces + [current] + rest
  {
  }

  function JoinPieces(pieces: seq<string>): string {
    if pieces == [] then []
    else if |pieces| == 1 then pieces[0]
    else pieces[0] + "," + JoinPieces(pieces[1..])
  }

  // Entered at this depth, the text has no comma outside `<...>`.
  predicate NoTopComma(depth: nat, s: string)
    decreases |s|
  {
    s != [] ==> (s[0] == ',' ==> Nesting(depth, s[0]) > 0) && NoTopComma(Nesting(depth, s[0]), s[1..])
  }

  // One parameter: no top-level comma, and every `<` closed.
  predicate Tidy(piece: string) {
    NoTopComma(0, piece) && Nested(0, piece) == 0
  }

  lemma {:induction false} PieceScanned(piece: string, rest: string, depth: nat, current: string)
    requires NoTopComma(depth, piece)
    ensures Pieces(piece + rest, depth, current) == Pieces(rest, Nested(depth, piece), current + piece)
    decreases |piece|
  {
    if piece == [] {
      assert piece + rest == rest && current + piece == current;
    } else {
      assert (piece + rest)[1..] == piece[1..] + rest;
      PieceScanned(piece[1..], rest, Nesting(depth, piece[0]), current + [piece[0]]);
      assert current + [piece[0]] + piece[1..] == current + piece;
    }
  }

  /** Splitting undoes joining for every list of tidy parameters, except that an empty last one is lost. */
  lemma {:induction false} SplitUndoesJoin(pieces: seq<string>)
    requires forall p :: p in pieces ==> Tidy(p)
    ensures SplitTopLevel(JoinPieces(pieces)) ==
      if pieces == [] || Last(pieces) != "" then pieces else pieces[..|pieces| - 1]
    decreases |pieces|
  {
    assert pieces != [] ==> pieces[0] in pieces && Tidy(pieces[0]);
    hide Tidy;
    if |pieces| == 1 {
      OnePieceSplits(pieces[0]);
    } else if |pieces| > 1 {
      assert forall p :: p in pieces[1..] ==> p in pieces;
      SplitUndoesJoin(pieces[1..]);
      assert JoinPieces(pieces) == pieces[0] + "," + JoinPieces(pieces[1..]);
      FirstPieceSplits(pieces[0], JoinPieces(pieces[1..]));
      hide *;
      assert pieces == [pieces[0]] + pieces[1..];
    }
  }

  lemma OnePieceSplits(piece: string)
    requires Tidy(piece)
    ensures SplitTopLevel(piece) == if piece == "" then [] else [piece]
  {
    PieceScanned(piece, [], 0, "");
    assert piece + [] == piece && "" + piece == piece;
  }

  lemma FirstPieceSplits(piece: string, tail: string)
    requires Tidy(piece)
    ensures SplitTopLevel(piece + "," + tail) == [piece] + SplitTopLevel(tail)
  {
    PieceScanned(piece, "," + tail, 0, "");
    assert piece + "," + tail == piece + ("," + tail);
    assert "" + piece == piece && ("," + tail)[1..] == tail;
  }

  lemma JoinMore(first: string, tail: seq<string>)
    requires tail != []
    ensures JoinPieces([first] + tail) == first + "," + JoinPieces(tail)
  {
    assert ([first] + tail)[1..] == tail;
  }

  // Entered at this depth, the text ends with a comma outside `<...>`.
  predicate EndsAtTopComma(depth: nat, s: string) {
    s != [] && Last(s) == ',' && Nested(depth, s[..|s| - 1]) == 0
  }

  lemma EndsLater(depth: nat, s: string)
    requires |s| > 1
    ensures EndsAtTopComma(depth, s) <==> EndsAtTopComma(Nesting(depth, s[0]), s[1..])
  {
    var front := s[..|s| - 1];
    assert front[0] == s[0] && front[1..] == s[1..][..|s| - 2];
    assert Nested(depth, front) == Nested(Nesting(depth, s[0]), front[1..]);
  }

  lemma EndsNow(depth: nat, s: string)
    ensures s == [] ==> !EndsAtTopComma(depth, s)
    ensures |s| == 1 ==> (EndsAtTopComma(depth, s) <==> s[0] == ',' && Nesting(depth, s[0]) == 0)
  {
  }

  lemma PiecesStep(rest: string, depth: nat, current: string)
    requires rest != []
    ensures var d := Nesting(depth, rest[0]);
      Pieces(rest, depth, current) ==
        if rest[0] == ',' && d == 0 then [current] + Pieces(rest[1..], d, "") else Pieces(rest[1..], d, current + [rest[0]])
  {
  }

  lemma PiecesEnd(current: string)
    ensures JoinPieces(Pieces([], 0, current)) == current
    ensures forall depth: nat :: Pieces([], depth, current) == if current == [] then [] else [current]
    ensures JoinPieces([current]) == current
  {
  }

  lemma Regroup(current: string, rest: string, joined: string)
    requires rest != []
    ensures current + [rest[0]] + rest[1..] == current + rest
    ensures current + "," + (joined + ",") == current + "," + joined + ","
  {
  }

  lemma OneLeft(rest: string, depth: nat, current: string)
    requires |rest| == 1
    ensures var pieces := Pieces(rest, depth, current);
      && pieces != []
      && (if EndsAtTopComma(depth, rest) then JoinPieces(pieces) + "," else JoinPieces(pieces)) == current + rest
  {
    var d := Nesting(depth, rest[0]);
    PiecesStep(rest, depth, current);
    PiecesEnd([]);
    PiecesEnd(current + [rest[0]]);
    EndsNow(depth, rest);
    assert rest[1..] == [] && current + [rest[0]] == current + rest && [current] + [] == [current];
    PiecesEnd(current);
    hide Pieces, EndsAtTopComma, JoinPieces;
  }

  lemma {:induction false} JoinUndoesPieces(rest: string, depth: nat, current: string)
    ensures var joined := JoinPieces(Pieces(rest, depth, current));
      (if EndsAtTopComma(depth, rest) then joined + "," else joined) == current + rest
    ensures rest != [] || current != [] ==> Pieces(rest, depth, current) != []
    decreases |rest|
  {
    hide *;
    if rest == [] {
      PiecesEnd(current);
      PiecesEnd([]);
      EndsNow(depth, rest);
      assert current + rest == current;
    } else if |rest| == 1 {
      OneLeft(rest, depth, current);
    } else {
      var d := Nesting(depth, rest[0]);
      var topComma := rest[0] == ',' && d == 0;
      var next := if topComma then "" else current + [rest[0]];
      var tail := Pieces(rest[1..], d, next);
      Regroup(current, rest, JoinPieces(tail));
      PiecesStep(rest, depth, current);
      JoinUndoesPieces(rest[1..], d, next);
      EndsLater(depth, rest);
      if topComma {
        JoinMore(current, tail);
      }
    }
  }

  /** Joining undoes splitting exactly when the text does not end with a comma outside `<...>`; that
      comma, and nothing else, is lost. */
  lemma JoinUndoesSplit(body: string)
    ensures JoinPieces(SplitTopLevel(body)) == body <==> !EndsAtTopComma(0, body)
    ensures EndsAtTopComma(0, body) ==> JoinPieces(SplitTopLevel(body)) + "," == body
  {
    JoinUndoesPieces(body, 0, "");
    assert "" + body == body;
    assert |JoinPieces(SplitTopLevel(body)) + ","| == |JoinPieces(SplitTopLevel(body))| + 1;
  }

  /* ---------- Parameter lists as types ---------- */

  // A type with its type arguments, such as `Map<K,V>[]`; the texts carry no comma and no `<` or `>`.
  datatype ParameterType = ParameterType(name: string, arguments: seq<ParameterType>, suffix: string)

  predicate Unmarked(s: string) {
    forall c :: c in s ==> c != ',' && c != '<' && c != '>'
  }

  predicate WellFormed(t: ParameterType) {
    Unmarked(t.name) && Unmarked(t.suffix) && forall a :: a in t.arguments ==> WellFormed(a)
  }

  function TypeText(t: ParameterType): string
    decreases t, 0
  {
    t.name + (if t.arguments == [] then "" else "<" + JoinPieces(TypeTexts(t.arguments)) + ">") + t.suffix
  }

  function TypeTexts(types: seq<ParameterType>): (texts: seq<string>)
    ensures |texts| == |types| && forall i :: 0 <= i < |types| ==> texts[i] == TypeText(types[i])
    decreases types, 1
  {
    if types == [] then [] else [TypeText(types[0])] + TypeTexts(types[1..])
  }

  // Read from this depth on, the text ends where it began and has no comma outside `<...>`.
  predicate Passes(depth: nat, s: string) {
    Nested(depth, s) == depth && NoTopComma(depth, s)
  }

  lemma {:induction false} PassesBoth(depth: nat, a: string, b: string)
    ensures Nested(depth, a + b) == Nested(Nested(depth, a), b)
    ensures NoTopComma(depth, a + b) <==> NoTopComma(depth, a) && NoTopComma(Nested(depth, a), b)
    decreases |a|
  {
    if a == [] {
      assert a + b == b;
    } else {
      assert (a + b)[0] == a[0] && (a + b)[1..] == a[1..] + b;
      PassesBoth(Nesting(depth, a[0]), a[1..], b);
    }
  }

  lemma {:induction false} UnmarkedPasses(depth: nat, s: string)
    requires Unmarked(s)
    ensures Passes(depth, s)
    decreases |s|
  {
    if s != [] {
      assert s[0] in s;
      assert forall c :: c in s[1..] ==> c in s;
      UnmarkedPasses(depth, s[1..]);
    }
  }

  lemma AngledPasses(depth: nat, s: string)
    requires Passes(depth + 1, s)
    ensures Passes(depth, "<" + s + ">")
  {
    PassesBoth(depth, "<" + s, ">");
    PassesBoth(depth, "<", s);
    assert Nested(depth, "<") == depth + 1 && NoTopComma(depth, "<");
    assert Nested(depth + 1, ">") == depth && NoTopComma(depth + 1, ">");
  }

  lemma {:induction false} JoinPasses(depth: nat, pieces: seq<string>)
    requires depth > 0 && forall p :: p in pieces ==> Passes(depth, p)
    ensures Passes(depth, JoinPieces(pieces))
  {
    if |pieces| == 1 {
      assert pieces[0] in pieces;
    } else if |pieces| > 1 {
      assert pieces[0] in pieces;
      JoinPasses(depth, pieces[1..]);
      PassesBoth(depth, pieces[0] + ",", JoinPieces(pieces[1..]));
      PassesBoth(depth, pieces[0], ",");
      assert Nested(depth, ",") == depth && NoTopComma(depth, ",");
    }
  }

  lemma {:induction false} TypePasses(depth: nat, t: ParameterType)
    requires WellFormed(t)
    ensures Passes(depth, TypeText(t))
    decreases t
  {
    var texts := TypeTexts(t.arguments);
    var inner := if t.arguments == [] then "" else "<" + JoinPieces(texts) + ">";
    if t.arguments != [] {
      forall p | p in texts
        ensures Passes(depth + 1, p)
      {
        var i :| 0 <= i < |texts| && texts[i] == p;
        TypePasses(depth + 1, t.arguments[i]);
      }
      JoinPasses(depth + 1, texts);
      AngledPasses(depth, JoinPieces(texts));
    }
    UnmarkedPasses(depth, t.name);
    UnmarkedPasses(depth, t.suffix);
    PassesBoth(depth, t.name, inner);
    PassesBoth(depth, t.name + inner, t.suffix);
    hide JoinPieces;
  }

  /** A printed parameter list is read back type by type: commas inside type arguments, however deep,
      do not split, and all others do. An empty last text is lost. */
  lemma ParametersReadBack(types: seq<ParameterType>)
    requires forall t :: t in types ==> WellFormed(t)
    ensures var texts := TypeTexts(types);
      SplitTopLevel(JoinPieces(texts)) == if types == [] || TypeText(Last(types)) != "" then texts else texts[..|types| - 1]
  {
    var texts := TypeTexts(types);
    forall p | p in texts
      ensures Tidy(p)
    {
      var i :| 0 <= i < |texts| && texts[i] == p;
      TypePasses(0, types[i]);
      hide TypeText, WellFormed;
    }
    hide TypeText, WellFormed, Tidy, JoinPieces, SplitTopLevel;
    SplitUndoesJoin(texts);
  }
}
