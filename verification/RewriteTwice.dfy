/**
 The whole constructor rewriter, a pass for each spelling of the class (nodes/remediation.py): when it
 keeps the balance, when the inserted factory calls can be erased again, and when it is idempotent.
 */
module RewriteTwice {
  import opened Collections
  import opened Text
  import opened JavaRewrite
  import opened RewriteLaws
  import opened RewriteErasure
  import opened RewriteStep
  import opened RewriteSites

  /* ---------- When a pass changes nothing ---------- */

  lemma NothingToDo(text: string, cls: string, factory: string)
    requires NoSites(text, cls, factory, 0)
    ensures RewritePass(text, cls, factory) == text
  {
    SitesFromNone(text, cls, factory, 0);
    assert text[0..] == text;
    hide NoSites;
  }

  // The second text repeats the first up to the parenthesis at o, and goes on with the factory call.
  predicate Puts(before: string, after: string, factory: string, o: nat) {
    o < |before| && o < |after| && after[..o + 1] == before[..o + 1] && factory + "(" <= after[o + 1..]
  }

  // The first thing a pass writes is a factory call behind its first site.
  lemma PassPuts(text: string, cls: string, factory: string) returns (o: nat)
    requires !NoSites(text, cls, factory, 0)
    ensures Site(text, cls, factory, o) && Puts(text, RewritePass(text, cls, factory), factory, o)
  {
    SitesFromNone(text, cls, factory, 0);
    var calls := SitesFrom(text, cls, factory, 0);
    ListedIsSite(text, cls, factory, 0);
    o := calls[0].open;
    hide *;
    FirstWritten(text, cls, factory, calls);
  }

  lemma FirstWritten(text: string, cls: string, factory: string, calls: seq<Call>)
    requires calls == SitesFrom(text, cls, factory, 0) && calls != []
    ensures Puts(text, RewritePass(text, cls, factory), factory, calls[0].open)
  {
    ListedIsSite(text, cls, factory, 0);
    PassFrom(text, cls, factory, calls);
    RenderHead(text, factory, calls);
    hide *;
    var o := calls[0].open;
    var rest := Render(text, factory, calls[0].close, calls[1..]);
    PutsPrefix(text, RewritePass(text, cls, factory), factory, o, Strip(Arguments(text, calls[0])) + ")" + rest);
  }

  lemma PassFrom(text: string, cls: string, factory: string, calls: seq<Call>)
    requires calls == SitesFrom(text, cls, factory, 0)
    ensures Within(text, calls) && RewritePass(text, cls, factory) == Render(text, factory, 0, calls)
  {
    hide SitesFrom, Render, Site;
  }

  lemma RenderHead(text: string, factory: string, calls: seq<Call>)
    requires calls != [] && Within(text, calls)
    ensures Within(text, calls[1..]) && calls[0].open < calls[0].close < |text|
    ensures Render(text, factory, 0, calls) == text[..calls[0].open + 1] + (factory + "(")
      + (Strip(Arguments(text, calls[0])) + ")" + Render(text, factory, calls[0].close, calls[1..]))
  {
    RenderAt(text, factory, calls, 0);
    assert calls[0..] == calls;
    var head, rest := text[..calls[0].open + 1], Render(text, factory, calls[0].close, calls[1..]);
    assert Slice(text, 0, calls[0].open + 1) == head;
    var stripped := Strip(Arguments(text, calls[0]));
    assert Wrapped(factory, Arguments(text, calls[0])) == factory + "(" + stripped + ")";
    hide Render, Wrapped, Strip, Arguments, Slice, Within;
    Regroup(head, factory + "(", stripped, ")", rest);
  }

  lemma Regroup(a: string, b: string, c: string, d: string, e: string)
    ensures a + (b + c + d) + e == a + b + (c + d + e)
  {
  }

  lemma PutsPrefix(before: string, after: string, factory: string, o: nat, rest: string)
    requires o < |before| && after == before[..o + 1] + (factory + "(") + rest
    ensures Puts(before, after, factory, o)
  {
    assert after == before[..o + 1] + (factory + "(" + rest);
  }

  // A call that goes on with the factory call is no site.
  lemma FactoryFollows(text: string, cls: string, factory: string, o: nat)
    requires IsName(factory) && o < |text| && factory + "(" <= text[o + 1..]
    ensures !Site(text, cls, factory, o)
  {
    if Site(text, cls, factory, o) {
      SiteCalls(text, cls, factory, o);
      var close := Match(text, o).value;
      SiteIs(text, cls, factory, o, close);
      assert text[close] == ')';
      hide Site, Match, IsCall, Strip;
      SliceStarts(text, factory, o, close);
      StartsAsWrapped(factory, text[o + 1..close]);
      hide *;
      assert false;
    }
  }

  // Behind an opening parenthesis the factory's name stands, and then its own parenthesis.
  lemma NameBehind(text: string, factory: string, o: nat, q: nat)
    requires IsName(factory) && o < |text| && factory + "(" <= text[o + 1..]
    requires o < q <= o + |factory| + 1
    ensures q < |text| && (if q <= o + |factory| then !IsParenthesis(text[q]) else text[q] == '(')
  {
    var f := factory + "(";
    assert text[q] == text[o + 1..][q - o - 1] == f[q - o - 1];
    assert q <= o + |factory| ==> factory[q - o - 1] in factory;
  }

  lemma SliceStarts(text: string, factory: string, o: nat, close: nat)
    requires IsName(factory) && o < close < |text| && text[close] == ')' && factory + "(" <= text[o + 1..]
    ensures factory + "(" <= text[o + 1..close]
  {
    if close <= o + |factory| + 1 {
      NameBehind(text, factory, o, close);
    } else {
      assert text[o + 1..close] == text[o + 1..][..close - o - 1];
    }
  }

  lemma StartsAsWrapped(factory: string, s: string)
    requires IsName(factory) && factory + "(" <= s
    ensures factory + "(" <= Strip(s)
  {
    assert s[0] == factory[0] && factory[0] in factory;
    assert StripLeft(s) == s;
    StartsWrappedLeft(factory, s);
  }

  /** A pass changes nothing exactly when it finds nothing to rewrite. */
  lemma PassFixed(text: string, cls: string, factory: string)
    requires IsName(factory)
    ensures RewritePass(text, cls, factory) == text <==> NoSites(text, cls, factory, 0)
  {
    if NoSites(text, cls, factory, 0) {
      NothingToDo(text, cls, factory);
    } else {
      var o := PassPuts(text, cls, factory);
      if RewritePass(text, cls, factory) == text {
        FactoryFollows(text, cls, factory, o);
      }
    }
    hide *;
  }

  // What one pass puts first, a second one does not take back.
  lemma PutsStay(text: string, first: string, both: string, simple: string, cls: string, factory: string, o: nat, p: nat)
    requires IsName(factory) && Site(text, simple, factory, o) && Puts(text, first, factory, o)
    requires Site(first, cls, factory, p) && Puts(first, both, factory, p)
    ensures both != text
  {
    if both == text {
      SiteOpens(text, simple, factory, o);
      SiteOpens(first, cls, factory, p);
      hide Site;
      if o < p <= o + |factory| {
        NameBehind(first, factory, o, p);
      } else if p < o <= p + |factory| {
        NameBehind(both, factory, p, o);
      } else if p <= o {
        if p < o {
          FactoryMoves(text, first, factory, p, o);
        }
        FactoryFollows(first, cls, factory, p);
      } else {
        FactoryMoves(first, text, factory, o, p);
        FactoryFollows(text, simple, factory, o);
      }
    }
  }

  lemma SiteOpens(text: string, cls: string, factory: string, o: nat)
    requires Site(text, cls, factory, o)
    ensures o < |text| && text[o] == '('
  {
    SiteCalls(text, cls, factory, o);
  }

  // Texts that agree as far as j agree on the factory call behind i.
  lemma FactoryMoves(from: string, to: string, factory: string, i: nat, j: nat)
    requires i < |from| && i < |to| && factory + "(" <= from[i + 1..]
    requires j < |from| && j < |to| && from[..j + 1] == to[..j + 1]
    requires i + |factory| < j
    ensures factory + "(" <= to[i + 1..]
  {
  }

  /* ---------- A site inside another one is copied unchanged ---------- */

  lemma NestedNeighbours(text: string, calls: seq<Call>) returns (k: nat)
    requires Ordered(text, calls) && !Sequential(calls)
    ensures k + 1 < |calls| && calls[k].open < calls[k + 1].open < calls[k].close
  {
    hide *;
    FollowsIsSequential(text, calls);
    k := NotFollowing(calls);
    NextOpens(text, calls, k);
  }

  lemma NotFollowing(calls: seq<Call>) returns (k: nat)
    requires !FollowsFrom(calls, 0)
    ensures k + 1 < |calls| && calls[k + 1].open < calls[k].close
  {
    var j :| 0 <= j < |calls| && CursorBefore(calls, j) > calls[j].open;
    k := j - 1;
  }

  lemma NextOpens(text: string, calls: seq<Call>, k: nat)
    requires Ordered(text, calls) && k + 1 < |calls|
    ensures calls[k].open < calls[k + 1].open
  {
    hide Closed;
  }

  lemma RenderNext(text: string, factory: string, calls: seq<Call>, i: nat) returns (head: string)
    requires i < |calls| && Within(text, calls)
    ensures CursorBefore(calls, i) <= |text| && CursorBefore(calls, i + 1) <= |text| && calls[i].open < calls[i].close <= |text|
    ensures Within(text, calls[i..]) && Within(text, calls[i + 1..])
    ensures Render(text, factory, CursorBefore(calls, i), calls[i..])
      == head + Wrapped(factory, Arguments(text, calls[i])) + Render(text, factory, CursorBefore(calls, i + 1), calls[i + 1..])
  {
    RenderAt(text, factory, calls, i);
    head := Slice(text, CursorBefore(calls, i), calls[i].open + 1);
    hide Render, Wrapped, Slice, Arguments;
  }

  lemma {:induction false} RenderHas(text: string, factory: string, calls: seq<Call>, i: nat, k: nat)
    returns (pre: string, post: string)
    requires i <= k < |calls| && Within(text, calls)
    ensures CursorBefore(calls, i) <= |text| && Within(text, calls[i..]) && calls[k].open < calls[k].close <= |text|
    ensures Render(text, factory, CursorBefore(calls, i), calls[i..]) == pre + Wrapped(factory, Arguments(text, calls[k])) + post
    decreases k - i
  {
    hide *;
    var head := RenderNext(text, factory, calls, i);
    if i == k {
      pre, post := head, Render(text, factory, CursorBefore(calls, i + 1), calls[i + 1..]);
    } else {
      pre, post := RenderHas(text, factory, calls, i + 1, k);
      var here := head + Wrapped(factory, Arguments(text, calls[i]));
      Prepend(here, pre, Wrapped(factory, Arguments(text, calls[k])), post);
      pre := here + pre;
    }
  }

  lemma Prepend(a: string, b: string, c: string, d: string)
    ensures a + (b + c + d) == a + b + c + d
  {
  }

  // A site of the text between a and b is a site of the whole.
  predicate InnerCall(inner: string, cls: string, factory: string, p: nat, m: nat) {
    && IsCall(inner, cls, p) && Scan(inner[p..], 0) == Some(m) && 0 < m && p + m < |inner|
    && !StartsWrapped(factory, inner[p + 1..p + m])
  }

  lemma SiteExtends(a: string, inner: string, b: string, cls: string, factory: string, p: nat, m: nat)
    requires InnerCall(inner, cls, factory, p, m)
    ensures |a| + p < |a + inner + b| && Site(a + inner + b, cls, factory, |a| + p)
  {
    hide *;
    InnerMeans(inner, cls, factory, p, m);
    var whole := a + inner + b;
    RestOf(a, inner, b, p);
    SliceMiddle(a, inner, b, p + 1, p + m);
    CallExtends(a, inner, b, cls, p);
    ScanConcat(inner[p..], b, 0);
    SiteFromScan(whole, cls, factory, |a| + p, m, inner[p + 1..p + m]);
  }

  lemma SiteFromScan(text: string, cls: string, factory: string, o: nat, m: nat, arguments: string)
    requires IsCall(text, cls, o) && o < |text| && Scan(text[o..], 0) == Some(m) && 0 < m && o + m <= |text|
    requires text[o + 1..o + m] == arguments && !(factory + "(" <= Strip(arguments))
    ensures Site(text, cls, factory, o)
  {
    hide *;
    MatchIsScan(text, o);
    SiteIs(text, cls, factory, o, o + m);
  }

  lemma RestOf(a: string, inner: string, b: string, p: nat)
    requires p < |inner|
    ensures |a| + p < |a + inner + b| && (a + inner + b)[|a| + p..] == inner[p..] + b
  {
  }

  lemma InnerMeans(inner: string, cls: string, factory: string, p: nat, m: nat)
    requires InnerCall(inner, cls, factory, p, m)
    ensures IsCall(inner, cls, p) && Scan(inner[p..], 0) == Some(m) && 0 < m && p + m < |inner|
    ensures !(factory + "(" <= Strip(inner[p + 1..p + m]))
  {
    hide IsCall, Scan, Strip;
  }

  // The text around a closed call makes a cut.
  lemma CutFor(c: Cut, name: string, factory: string)
    requires Core(c) && Sides(c, factory) && IsName(name) && IsName(factory)
    ensures Cutting(c, name, factory) && c.head != []
  {
    hide Above, Balance;
  }

  lemma InnerSite(text: string, cls: string, factory: string, o: nat, close: nat, i: nat) returns (p: nat, m: nat)
    requires o < i < close < |text| && text[o] == '(' && Match(text, o) == Some(close) && Site(text, cls, factory, i)
    requires IsName(cls) && IsName(factory)
    ensures InnerCall(Strip(text[o + 1..close]), cls, factory, p, m)
  {
    hide *;
    var c := MakeCut(text, factory, o, close);
    CutFor(c, cls, factory);
    SiteCalls(text, cls, factory, i);
    var q := CallPlaced(c, cls, factory, i);
    InMiddle(c, q);
    SiteAt(c, cls, factory, q);
    p := q.i;
    m := InnerSiteIs(c, cls, factory, p);
  }

  lemma InMiddle(c: Cut, q: Pos)
    requires c.head != [] && Inside(c, q) && |c.head| <= Place(c, q) < |c.head| + |Middle(c)|
    ensures q.InInner? && q != Own(c)
  {
  }

  lemma InnerSiteIs(c: Cut, cls: string, factory: string, p: nat) returns (m: nat)
    requires SiteIn(c, cls, factory, InInner(p))
    ensures InnerCall(c.inner, cls, factory, p, m)
  {
    CallOpens(c, cls, InInner(p));
    ScanIsLater(c.inner[p..]);
    hide IsCall, Scan, StartsWrapped;
    m := Scan(c.inner[p..], 0).value;
  }

  // An opening parenthesis is not closed by itself.
  lemma ScanIsLater(s: string)
    requires s != [] && s[0] == '('
    ensures Scan(s, 0) != Some(0)
    ensures Scan(s, 0).Some? ==> Scan(s, 0).value < |s|
  {
  }

  /** A pass leaves a site of its spelling exactly when its sites nest. */
  lemma PassLeavesSites(text: string, cls: string, factory: string)
    requires IsName(cls) && IsName(factory)
    ensures NoSites(RewritePass(text, cls, factory), cls, factory, 0) <==> Sequential(SitesFrom(text, cls, factory, 0))
  {
    var calls := SitesFrom(text, cls, factory, 0);
    if Sequential(calls) {
      PassLeavesNoSites(text, cls, factory);
    } else {
      SitesAreOrdered(text, cls, factory, 0);
      var k := NestedNeighbours(text, calls);
      NestedIsLeft(text, cls, factory, k);
    }
    hide *;
  }

  lemma NestedIsLeft(text: string, cls: string, factory: string, k: nat)
    requires IsName(cls) && IsName(factory)
    requires var calls := SitesFrom(text, cls, factory, 0);
      k + 1 < |calls| && calls[k].open < calls[k + 1].open < calls[k].close
    ensures !NoSites(RewritePass(text, cls, factory), cls, factory, 0)
  {
    hide *;
    var calls := SitesFrom(text, cls, factory, 0);
    PassFrom(text, cls, factory, calls);
    FromStart(calls);
    var pre, post := RenderHas(text, factory, calls, 0, k);
    var inner, p, m := NestedInner(text, cls, factory, calls, k);
    WrappedMeans(factory, Arguments(text, calls[k]));
    Ungroup(pre, factory + "(", inner, ")", post);
    SiteExtends(pre + (factory + "("), inner, ")" + post, cls, factory, p, m);
    SomeSite(RewritePass(text, cls, factory), cls, factory, |pre + (factory + "(")| + p);
  }

  lemma FromStart(calls: seq<Call>)
    ensures calls[0..] == calls && CursorBefore(calls, 0) == 0
  {
  }

  lemma WrappedMeans(factory: string, arguments: string)
    ensures Wrapped(factory, arguments) == factory + "(" + Strip(arguments) + ")"
  {
  }

  // The call rewritten next opens among the arguments of this one.
  lemma NestedInner(text: string, cls: string, factory: string, calls: seq<Call>, k: nat) returns (inner: string, p: nat, m: nat)
    requires IsName(cls) && IsName(factory) && calls == SitesFrom(text, cls, factory, 0)
    requires k + 1 < |calls| && calls[k].open < calls[k + 1].open < calls[k].close
    ensures calls[k].close <= |text| && inner == Strip(Arguments(text, calls[k])) && InnerCall(inner, cls, factory, p, m)
  {
    hide *;
    ListedIsSite(text, cls, factory, k);
    ListedIsSite(text, cls, factory, k + 1);
    var o, close := calls[k].open, calls[k].close;
    SiteOpens(text, cls, factory, o);
    MatchAfter(text, o);
    ArgumentsAre(text, calls[k]);
    inner := Strip(Arguments(text, calls[k]));
    p, m := InnerSite(text, cls, factory, o, close, calls[k + 1].open);
  }

  lemma ArgumentsAre(text: string, call: Call)
    requires call.open < call.close <= |text|
    ensures Arguments(text, call) == text[call.open + 1..call.close]
  {
  }

  lemma Ungroup(a: string, b: string, c: string, d: string, e: string)
    ensures a + (b + c + d) + e == a + b + c + (d + e)
  {
  }

  lemma SomeSite(text: string, cls: string, factory: string, o: nat)
    requires o < |text| && Site(text, cls, factory, o)
    ensures !NoSites(text, cls, factory, 0)
  {
  }

  /** A second pass changes nothing exactly when no rewritten call lies inside another. */
  lemma PassIsIdempotent(text: string, cls: string, factory: string)
    requires IsName(cls) && IsName(factory)
    ensures var once := RewritePass(text, cls, factory);
      RewritePass(once, cls, factory) == once <==> Sequential(SitesFrom(text, cls, factory, 0))
  {
    PassLeavesSites(text, cls, factory);
    PassFixed(RewritePass(text, cls, factory), cls, factory);
    hide *;
  }

  /* ---------- Both passes ---------- */

  /** The rewriter changes nothing exactly when neither spelling has a call left to rewrite. */
  lemma RewriteFixed(text: string, cls: string, factory: string)
    requires IsName(factory)
    ensures Rewritten(text, cls, factory) == text <==>
      NoSites(text, SimpleName(cls), factory, 0) && NoSites(text, cls, factory, 0)
  {
    var simple := SimpleName(cls);
    var first := RewritePass(text, simple, factory);
    var both := RewritePass(first, cls, factory);
    assert both == Rewritten(text, cls, factory);
    hide *;
    PassFixed(text, simple, factory);
    PassFixed(text, cls, factory);
    PassFixed(first, cls, factory);
    if !NoSites(text, simple, factory, 0) && !NoSites(first, cls, factory, 0) {
      var o := PassPuts(text, simple, factory);
      var p := PassPuts(first, cls, factory);
      PutsStay(text, first, both, simple, cls, factory, o, p);
    }
  }

  // No rewritten call of either spelling lies inside another of the same spelling.
  predicate NoneNests(text: string, cls: string, factory: string) {
    Sequential(SitesFrom(text, SimpleName(cls), factory, 0)) && Sequential(SitesFrom(text, cls, factory, 0))
  }

  // The same of the text each pass reads.
  predicate BothSequential(text: string, cls: string, factory: string) {
    && Sequential(SitesFrom(text, SimpleName(cls), factory, 0))
    && Sequential(SitesFrom(RewritePass(text, SimpleName(cls), factory), cls, factory, 0))
  }

  predicate NamesOf(cls: string, factory: string) {
    IsName(cls) && IsName(SimpleName(cls)) && IsName(factory)
  }

  /** What the second pass reads nests exactly when the input does. */
  lemma SequentialOnInput(text: string, cls: string, factory: string)
    requires NamesOf(cls, factory)
    ensures BothSequential(text, cls, factory) <==> NoneNests(text, cls, factory)
  {
    var simple := SimpleName(cls);
    if Sequential(SitesFrom(text, simple, factory, 0)) {
      var first := RewritePass(text, simple, factory);
      NamesAre(cls, factory);
      BothMean(text, cls, factory);
      hide *;
      SequentialIsUnnested(text, cls, factory);
      SequentialIsUnnested(first, cls, factory);
      if simple == cls {
        PassLeavesSites(text, cls, factory);
        NoSitesUnnested(first, cls, factory);
      } else {
        PassKeepsOther(text, simple, cls, factory);
      }
    }
    hide *;
  }

  lemma NamesAre(cls: string, factory: string)
    requires NamesOf(cls, factory)
    ensures IsName(cls) && IsName(SimpleName(cls)) && IsName(factory) && Names(SimpleName(cls), cls, factory) && Names(cls, SimpleName(cls), factory)
  {
    hide SimpleName, IsName;
  }

  lemma BothMean(text: string, cls: string, factory: string)
    ensures BothSequential(text, cls, factory) <==>
      Sequential(SitesFrom(text, SimpleName(cls), factory, 0))
      && Sequential(SitesFrom(RewritePass(text, SimpleName(cls), factory), cls, factory, 0))
    ensures NoneNests(text, cls, factory) <==>
      Sequential(SitesFrom(text, SimpleName(cls), factory, 0)) && Sequential(SitesFrom(text, cls, factory, 0))
  {
    hide Sequential, SitesFrom, SimpleName, RewritePass;
  }

  lemma NoSitesUnnested(text: string, cls: string, factory: string)
    requires NoSites(text, cls, factory, 0)
    ensures Unnested(text, cls, factory)
  {
    hide Site, Match;
  }

  // The calls both passes rewrite.
  function SiteCount(text: string, cls: string, factory: string): nat {
    var simple := SimpleName(cls);
    |SitesFrom(text, simple, factory, 0)| + |SitesFrom(RewritePass(text, simple, factory), cls, factory, 0)|
  }

  // Pass by pass, for every balanced factory.
  lemma PassesExactly(text: string, cls: string, factory: string)
    requires Balance(factory) == 0
    ensures Balance(Rewritten(text, cls, factory)) <= Balance(text)
    ensures Balance(Rewritten(text, cls, factory)) == Balance(text) <==> BothSequential(text, cls, factory)
    ensures Erases(text, Rewritten(text, cls, factory), cls, SimpleName(cls), factory, SiteCount(text, cls, factory))
      <==> BothSequential(text, cls, factory)
  {
    var simple := SimpleName(cls);
    var first := RewritePass(text, simple, factory);
    var both := Rewritten(text, cls, factory);
    hide SimpleName, SitesFrom, Sequential, RewritePass, Erases, Balance;
    PassKeepsBalanceExactly(text, simple, factory);
    PassKeepsBalanceExactly(first, cls, factory);
    if BothSequential(text, cls, factory) {
      ErasureGivesBack(text, simple, factory);
      ErasureGivesBack(first, cls, factory);
      var m, n := |SitesFrom(text, simple, factory, 0)|, |SitesFrom(first, cls, factory, 0)|;
      ErasesEither(text, first, simple, cls, factory, m);
      ErasesEither(first, both, cls, simple, factory, n);
      ErasesCompose(text, first, both, cls, simple, factory, m, n);
    }
    if Erases(text, both, cls, simple, factory, SiteCount(text, cls, factory)) {
      ErasesBalance(text, both, cls, simple, factory, SiteCount(text, cls, factory));
    }
  }

  /** The rewriter keeps the balance exactly when the input nests no rewritten call in another of the
      same spelling, and then erasing one factory call per rewritten call gives back the input, up to
      blanks at the ends of their arguments. */
  lemma RewriteExactly(text: string, cls: string, factory: string)
    requires NamesOf(cls, factory)
    ensures Balance(Rewritten(text, cls, factory)) <= Balance(text)
    ensures Balance(Rewritten(text, cls, factory)) == Balance(text) <==> NoneNests(text, cls, factory)
    ensures Erases(text, Rewritten(text, cls, factory), cls, SimpleName(cls), factory, SiteCount(text, cls, factory))
      <==> NoneNests(text, cls, factory)
  {
    NamesAre(cls, factory);
    NameIsFlat(factory);
    hide *;
    PassesExactly(text, cls, factory);
    SequentialOnInput(text, cls, factory);
  }

  lemma NameIsFlat(name: string)
    requires IsName(name)
    ensures Balance(name) == 0
  {
    AboveFlat(name, 1);
    hide Balance, Above;
  }

  // What is left of either spelling.
  lemma SitesLeft(text: string, cls: string, factory: string)
    requires NamesOf(cls, factory)
    ensures var simple := SimpleName(cls);
      var first := RewritePass(text, simple, factory); var both := Rewritten(text, cls, factory);
      && (NoSites(both, cls, factory, 0) <==> Sequential(SitesFrom(first, cls, factory, 0)))
      && (cls != simple && Sequential(SitesFrom(first, cls, factory, 0)) ==>
          (NoSites(both, simple, factory, 0) <==> Sequential(SitesFrom(text, simple, factory, 0))))
  {
    var simple := SimpleName(cls);
    var first := RewritePass(text, simple, factory);
    assert Rewritten(text, cls, factory) == RewritePass(first, cls, factory);
    NamesAre(cls, factory);
    hide *;
    PassLeavesSites(text, simple, factory);
    PassLeavesSites(first, cls, factory);
    if cls != simple && Sequential(SitesFrom(first, cls, factory, 0)) {
      PassKeepsOther(first, cls, simple, factory);
    }
  }

  /** When the input nests no rewritten call in another of the same spelling, running the rewriter
      again changes nothing; for a class in a package, in no other case. */
  lemma RewriteIsIdempotent(text: string, cls: string, factory: string)
    requires NamesOf(cls, factory)
    ensures var both := Rewritten(text, cls, factory);
      NoneNests(text, cls, factory) ==> Rewritten(both, cls, factory) == both
    ensures var both := Rewritten(text, cls, factory);
      cls != SimpleName(cls) ==> (Rewritten(both, cls, factory) == both <==> NoneNests(text, cls, factory))
  {
    NamesAre(cls, factory);
    BothMean(text, cls, factory);
    hide *;
    SitesLeft(text, cls, factory);
    RewriteFixed(Rewritten(text, cls, factory), cls, factory);
    SequentialOnInput(text, cls, factory);
  }

  /** For a class without a package both passes look for the same name, and what decides is whether
      the first of them leaves nested calls to the second. */
  lemma PlainNameIsIdempotent(text: string, cls: string, factory: string)
    requires NamesOf(cls, factory) && SimpleName(cls) == cls
    ensures var both := Rewritten(text, cls, factory);
      Rewritten(both, cls, factory) == both <==> Sequential(SitesFrom(RewritePass(text, cls, factory), cls, factory, 0))
  {
    NamesAre(cls, factory);
    hide *;
    SitesLeft(text, cls, factory);
    RewriteFixed(Rewritten(text, cls, factory), cls, factory);
  }

  /* ---------- A text with a nested call ---------- */

  const Nested: string := "new A(new A())"

  lemma NestedSpans(text: string)
    requires |text| == 14 && text[5] == '(' && text[11] == '(' && text[12] == ')' && text[13] == ')'
    requires forall k :: 0 <= k < 5 || 6 <= k < 11 ==> !IsParenthesis(text[k])
    ensures Match(text, 5) == Some(13) && Match(text, 11) == Some(12) && Balance(text) == 0
  {
    hide Balance, Match;
    AboveFlat(text[0..5], 1);
    forall j | 6 <= j <= 11
      ensures Balance(text[6..j]) == 0 && Balance(text[5..j]) == 1
    {
      FlatPart(text, j);
    }
    hide *;
    BalanceSplit(text, 0, 5, 14);
    BalanceNext(text, 5, 11);
    BalanceNext(text, 5, 12);
    BalanceNext(text, 5, 13);
    assert text[0..14] == text;
    OuterSpan(text);
    InnerSpan(text);
  }

  lemma OuterSpan(text: string)
    requires |text| == 14 && text[5] == '(' && text[11] == '(' && text[12] == ')' && text[13] == ')'
    requires Balance(text[6..11]) == 0 && forall j :: 6 <= j <= 11 ==> Balance(text[5..j]) == 1
    ensures Match(text, 5) == Some(13)
  {
    hide *;
    BalanceNext(text, 5, 11);
    BalanceNext(text, 5, 12);
    BalanceNext(text, 6, 11);
    BalanceNext(text, 6, 12);
    MatchIs(text, 5, 13);
  }

  lemma InnerSpan(text: string)
    requires |text| == 14 && text[11] == '(' && text[12] == ')'
    ensures Match(text, 11) == Some(12)
  {
    BalanceNext(text, 11, 11);
    assert text[11..11] == [] && text[12..12] == [] && Balance([]) == 0;
    MatchIs(text, 11, 12);
  }

  lemma FlatPart(text: string, j: nat)
    requires |text| == 14 && text[5] == '(' && 6 <= j <= 11
    requires forall k :: 6 <= k < 11 ==> !IsParenthesis(text[k])
    ensures Balance(text[6..j]) == 0 && Balance(text[5..j]) == 1
  {
    AboveFlat(text[6..j], 1);
    BalanceSplit(text, 5, 6, j);
    BalanceNext(text, 5, 5);
    assert text[5..5] == [] && Balance([]) == 0;
  }

  lemma NestedCalls()
    ensures IsCall(Nested, "A", 5) && IsCall(Nested, "A", 11)
  {
    assert Nested[0..5] == "new A" && Nested[6..11] == "new A";
    assert "new A"[..3] == "new" && "new A"[3..4] == " " && "new A"[4..5] == "A" && "new A"[5..] == "";
    assert HeadSplit("new A", "A", 4);
    assert Head(Nested[0..5], "A") && Head(Nested[6..11], "A");
  }

  lemma NestedNames()
    ensures SimpleName("A") == "A" && NamesOf("A", "f")
  {
    assert "A"[..0] == [];
  }

  /** The rewriter breaks a balanced text: in `new A(new A())` the outer call is rewritten first, and
      the cursor then moves back for the inner one. */
  lemma NestedCallLosesBalance()
    ensures Balance(Nested) == 0 && Balance(Rewritten(Nested, "A", "f")) < 0
  {
    NestedSpans(Nested);
    NestedSitesThere();
    NestedNames();
    hide *;
    NestedNests();
    RewriteExactly(Nested, "A", "f");
  }

  lemma NestedSitesThere()
    ensures |Nested| == 14 && Site(Nested, "A", "f", 5) && Site(Nested, "A", "f", 11)
  {
    NestedSpans(Nested);
    NestedCalls();
    NoFactoryYet(Nested[6..13]);
    NoFactoryYet(Nested[12..12]);
    hide Balance, Match, IsCall, Strip, Site;
    SiteIs(Nested, "A", "f", 5, 13);
    SiteIs(Nested, "A", "f", 11, 12);
  }

  lemma NestedNests()
    requires Site(Nested, "A", "f", 5) && Site(Nested, "A", "f", 11) && Match(Nested, 5) == Some(13)
    requires SimpleName("A") == "A"
    ensures !NoneNests(Nested, "A", "f")
  {
    SequentialIsUnnested(Nested, "A", "f");
    hide *;
    if Unnested(Nested, "A", "f") {
      UnnestedAt(Nested, "A", "f", 5, 11);
    }
    BothMean(Nested, "A", "f");
  }

  lemma NoFactoryYet(arguments: string)
    requires arguments == [] || (arguments[0] != 'f' && !IsSpace(arguments[0]))
    ensures !("f" + "(" <= Strip(arguments))
  {
    assert StripLeft(arguments) == arguments;
    StripRightStarts(arguments);
  }

  /* ---------- The second pass of a plain name finishes the first ---------- */

  lemma SiteIsOpen(text: string, cls: string, factory: string, o: nat)
    requires o < |text| && text[o] != '('
    ensures !Site(text, cls, factory, o)
  {
  }

  // No parenthesis opens between the two places.
  lemma {:induction false} SitesSkip(text: string, cls: string, factory: string, k: nat, m: nat)
    requires k <= m <= |text| && forall o :: k <= o < m ==> text[o] != '('
    ensures SitesFrom(text, cls, factory, k) == SitesFrom(text, cls, factory, m)
    decreases m - k
  {
    if k < m {
      SitesSkip(text, cls, factory, k + 1, m);
      SiteIsOpen(text, cls, factory, k);
      SitesStep(text, cls, factory, k);
      hide *;
    }
  }

  lemma NestedOpens()
    ensures |Nested| == 14
    ensures forall o :: 0 <= o < 5 || 6 <= o < 11 || 12 <= o < 14 ==> Nested[o] != '('
  {
  }

  lemma NestedList()
    ensures SitesFrom(Nested, "A", "f", 0) == [Call(5, 13), Call(11, 12)]
  {
    hide *;
    NestedSitesThere();
    NestedOpens();
    NestedMatches();
    TwoSites(Nested, "A", "f");
  }

  lemma NestedMatches()
    ensures Match(Nested, 5) == Some(13) && Match(Nested, 11) == Some(12)
  {
    NestedSpans(Nested);
  }

  lemma TwoSites(text: string, cls: string, factory: string)
    requires |text| == 14 && forall o :: 0 <= o < 5 || 6 <= o < 11 || 12 <= o < 14 ==> text[o] != '('
    requires Site(text, cls, factory, 5) && Match(text, 5) == Some(13)
    requires Site(text, cls, factory, 11) && Match(text, 11) == Some(12)
    ensures SitesFrom(text, cls, factory, 0) == [Call(5, 13), Call(11, 12)]
  {
    hide *;
    SitesSkip(text, cls, factory, 0, 5);
    SitesStep(text, cls, factory, 5);
    SitesSkip(text, cls, factory, 6, 11);
    SitesStep(text, cls, factory, 11);
    SitesSkip(text, cls, factory, 12, 14);
    NoSitesAtEnd(text, cls, factory, 14);
  }

  lemma NoSitesAtEnd(text: string, cls: string, factory: string, k: nat)
    requires |text| <= k
    ensures SitesFrom(text, cls, factory, k) == []
  {
  }

  const Halfway: string := "new A(f(new A())f()))"

  lemma WrappedNested()
    ensures Wrapped("f", "new A()") == "f(new A())" && Wrapped("f", "") == "f()"
  {
    assert StripLeft("new A()") == "new A()" && StripRight("new A()") == "new A()";
  }

  lemma NestedPieces()
    ensures |Nested| == 14 && Nested[12..] == "))"
    ensures Arguments(Nested, Call(5, 13)) == "new A()" && Arguments(Nested, Call(11, 12)) == ""
    ensures Slice(Nested, 0, 6) == "new A(" && Slice(Nested, 13, 12) == ""
  {
  }

  lemma HalfwayIs()
    ensures "new A(" + "f(new A())" + ("" + "f()" + "))") == Halfway
  {
  }

  lemma NestedWithin(one: Call, two: Call)
    requires one == Call(5, 13) && two == Call(11, 12)
    ensures Within(Nested, [one] + [two]) && Within(Nested, [two] + []) && Within(Nested, [])
    ensures [one, two] == [one] + [two] && [two] == [two] + []
  {
  }

  lemma NestedOnce()
    ensures RewritePass(Nested, "A", "f") == Halfway
  {
    hide *;
    var one, two := Call(5, 13), Call(11, 12);
    NestedList();
    NestedPieces();
    WrappedNested();
    NestedWithin(one, two);
    PassFrom(Nested, "A", "f", [one, two]);
    RenderCons(Nested, "f", 0, one, [two]);
    RenderCons(Nested, "f", 13, two, []);
    RenderNone(Nested, "f", 12);
    HalfwayIs();
  }

  lemma CallEndsInName(text: string, name: string, o: nat)
    requires IsName(name) && IsCall(text, name, o) && 0 < o && !IsSpace(text[o - 1])
    ensures text[o - 1] == Last(name)
  {
    hide *;
    var start, end := NameBefore(text, name, o);
    NameOrder(text, name, start, end, o);
    if end < o {
      BlankAfter(text, name, start, end, o, o - 1);
    } else {
      SliceEnds(text, name, start, end);
    }
  }

  lemma SliceEnds(text: string, name: string, start: nat, end: nat)
    requires start < end <= |text| && text[start..end] == name
    ensures text[end - 1] == Last(name)
  {
    assert text[start..end][|name| - 1] == text[end - 1];
  }

  // Directly behind a letter other than the last one of the name, no call of it opens.
  lemma NameEndsCall(text: string, name: string, o: nat)
    requires IsName(name) && 0 < o < |text| && !IsSpace(text[o - 1]) && text[o - 1] != Last(name)
    ensures !IsCall(text, name, o)
  {
    hide IsCall;
    if IsCall(text, name, o) {
      CallEndsInName(text, name, o);
    }
  }

  lemma HalfwaySites(o: nat)
    requires o < |Halfway| && o != 13
    ensures !Site(Halfway, "A", "f", o)
  {
    if o == 5 {
      assert "f" + "(" <= Halfway[6..];
      FactoryFollows(Halfway, "A", "f", 5);
    } else if o == 7 || o == 17 {
      NameEndsCall(Halfway, "A", o);
      NoCallNoSite(Halfway, "A", "f", o);
    } else {
      SiteIsOpen(Halfway, "A", "f", o);
    }
  }

  lemma NoCallNoSite(text: string, cls: string, factory: string, o: nat)
    requires !IsCall(text, cls, o)
    ensures !Site(text, cls, factory, o)
  {
  }

  /** For a class without a package the converse fails: `new A(new A())` nests, yet rewriting its
      rewritten text changes nothing, since the second pass wraps the call the first one copied. */
  lemma PlainNameMaySettle()
    ensures !NoneNests(Nested, "A", "f")
    ensures Rewritten(Rewritten(Nested, "A", "f"), "A", "f") == Rewritten(Nested, "A", "f")
  {
    NestedSpans(Nested);
    NestedSitesThere();
    NestedNames();
    hide *;
    NestedNests();
    NestedOnce();
    HalfwayUnnested();
    PlainNameIsIdempotent(Nested, "A", "f");
  }

  lemma HalfwayUnnested()
    ensures Sequential(SitesFrom(Halfway, "A", "f", 0))
  {
    forall o: nat | o < |Halfway| && o != 13
      ensures !Site(Halfway, "A", "f", o)
    {
      HalfwaySites(o);
    }
    hide Site, Match;
    SequentialIsUnnested(Halfway, "A", "f");
  }
}
