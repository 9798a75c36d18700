/**
 Where a pass of the constructor rewriter finds its calls, before and after some of them are wrapped
 (nodes/remediation.py). A pass whose sites do not nest leaves no site of its own spelling, and keeps
 the sites of any other spelling and how they nest.
 */
module RewriteSites {
  import opened Collections
  import opened Text
  import opened JavaRewrite
  import opened RewriteLaws
  import opened RewriteErasure
  import opened RewriteStep

  // No site lies inside another.
  predicate Unnested(text: string, cls: string, factory: string) {
    forall o, i :: 0 <= o < i < |text| && Site(text, cls, factory, o) && Site(text, cls, factory, i) ==> Match(text, o).value < i
  }

  // A pass has nothing to do from k on.
  predicate NoSites(text: string, cls: string, factory: string, k: nat) {
    forall o :: k <= o < |text| ==> !Site(text, cls, factory, o)
  }

  /* ---------- Sites, as a list and as positions ---------- */

  lemma {:induction false} SitesFromNone(text: string, cls: string, factory: string, k: nat)
    ensures SitesFrom(text, cls, factory, k) == [] <==> NoSites(text, cls, factory, k)
    decreases |text| - k
  {
    if k < |text| {
      SitesFromNone(text, cls, factory, k + 1);
      SitesStep(text, cls, factory, k);
      hide Site, SitesFrom;
    }
  }

  lemma {:induction false} SiteListed(text: string, cls: string, factory: string, k: nat, o: nat)
    requires k <= o < |text| && Site(text, cls, factory, o)
    ensures Call(o, Match(text, o).value) in SitesFrom(text, cls, factory, k)
    decreases o - k
  {
    hide *;
    SitesStep(text, cls, factory, k);
    if Site(text, cls, factory, k) {
      SiteCalls(text, cls, factory, k);
    }
    var here := if Site(text, cls, factory, k) then [Call(k, Match(text, k).value)] else [];
    if k < o {
      SiteListed(text, cls, factory, k + 1, o);
    }
    ListedEither(Call(o, Match(text, o).value), here, SitesFrom(text, cls, factory, k + 1));
  }

  lemma ListedEither(call: Call, a: seq<Call>, b: seq<Call>)
    ensures call in a + b <==> call in a || call in b
  {
  }

  lemma ListedIsSite(text: string, cls: string, factory: string, i: nat)
    requires i < |SitesFrom(text, cls, factory, 0)|
    ensures var call := SitesFrom(text, cls, factory, 0)[i];
      call.open < |text| && Site(text, cls, factory, call.open) && Match(text, call.open) == Some(call.close)
  {
    hide Site, Match, SitesFrom;
  }

  lemma SequentialIsUnnested(text: string, cls: string, factory: string)
    ensures Sequential(SitesFrom(text, cls, factory, 0)) <==> Unnested(text, cls, factory)
  {
    var sites := SitesFrom(text, cls, factory, 0);
    SitesAreOrdered(text, cls, factory, 0);
    if Sequential(sites) {
      forall o, i | 0 <= o < i < |text| && Site(text, cls, factory, o) && Site(text, cls, factory, i)
        ensures Match(text, o).value < i
      {
        InOrder(text, cls, factory, o, i);
      }
    }
    if Unnested(text, cls, factory) {
      forall m, n | 0 <= m < n < |sites|
        ensures sites[m].close < sites[n].open
      {
        ListedIsSite(text, cls, factory, m);
        ListedIsSite(text, cls, factory, n);
        hide Site, Match, SitesFrom;
      }
    }
  }

  lemma SiteAtIndex(text: string, cls: string, factory: string, o: nat) returns (m: nat)
    requires Site(text, cls, factory, o)
    ensures var sites := SitesFrom(text, cls, factory, 0);
      m < |sites| && Match(text, o).Some? && sites[m] == Call(o, Match(text, o).value)
  {
    SiteCalls(text, cls, factory, o);
    SiteListed(text, cls, factory, 0, o);
    hide *;
    var sites := SitesFrom(text, cls, factory, 0);
    m :| 0 <= m < |sites| && sites[m] == Call(o, Match(text, o).value);
  }

  lemma OrderedIndex(text: string, calls: seq<Call>, m: nat, n: nat)
    requires Ordered(text, calls) && m < |calls| && n < |calls| && calls[m].open < calls[n].open
    ensures m < n
  {
    hide Closed;
  }

  lemma SequentialAt(calls: seq<Call>, m: nat, n: nat)
    requires Sequential(calls) && m < n < |calls|
    ensures calls[m].close < calls[n].open
  {
  }

  lemma InOrder(text: string, cls: string, factory: string, o: nat, i: nat)
    requires Sequential(SitesFrom(text, cls, factory, 0)) && Ordered(text, SitesFrom(text, cls, factory, 0))
    requires o < i < |text| && Site(text, cls, factory, o) && Site(text, cls, factory, i)
    ensures Match(text, o).Some? && Match(text, o).value < i
  {
    hide *;
    var m := SiteAtIndex(text, cls, factory, o);
    var n := SiteAtIndex(text, cls, factory, i);
    OrderedIndex(text, SitesFrom(text, cls, factory, 0), m, n);
    SequentialAt(SitesFrom(text, cls, factory, 0), m, n);
  }

  /* ---------- One call wrapped ---------- */

  // The text cut at one closed call.
  lemma MakeCut(text: string, factory: string, o: nat, close: nat) returns (c: Cut)
    requires o < |text| && text[o] == '(' && Match(text, o) == Some(close)
    ensures Core(c) && Sides(c, factory) && Whole(c) == text && |c.head| == o + 1 && Blank(c.left) && Blank(c.right)
    ensures o < close < |text| && |c.head| + |Middle(c)| == close
    ensures c.head == text[..o + 1] && c.inner == Strip(text[o + 1..close]) && c.tail == text[close..]
  {
    ArgumentsAbove(text, o, close);
    var arguments := text[o + 1..close];
    var left, right := StripSplit(arguments);
    StrippedAbove(arguments);
    c := Cut(text[..o + 1], left, Strip(arguments), right, text[close..]);
    hide Above, Balance, Strip, Match;
    assert Middle(c) == arguments;
    assert text == text[..o + 1] + arguments + text[close..];
  }

  function Wrap(c: Cut, factory: string): Cut {
    c.(left := factory + "(", right := ")")
  }

  lemma WrapIs(c: Cut, factory: string)
    requires Core(c) && Sides(c, factory)
    ensures Core(Wrap(c, factory)) && Sides(Wrap(c, factory), factory) && Alike(c, Wrap(c, factory))
    ensures Whole(Wrap(c, factory)) == c.head + (factory + "(" + c.inner + ")") + c.tail
  {
  }

  lemma OwnCloses(c: Cut)
    requires Core(c)
    ensures Inside(c, Own(c)) && CharAt(c, Own(c)) == '(' && CloseIn(c, Own(c)) == Some(InTail(0)) && Place(c, Own(c)) == |c.head| - 1
  {
    var x := c.head[|c.head| - 1..];
    assert x == "(";
    BalanceOfParentheses();
    assert forall k: nat :: !Closes(x, 0, k);
    BalanceNext(c.tail, 0, 0);
    assert c.tail[0..0] == [] && c.tail[..1] == c.tail[0..1] && Balance([]) == 0;
    assert Closes(c.tail, 1, 0);
    ScanIs(c.tail, 1, 0);
  }

  // The wrapped call is no site any more.
  lemma OwnIsWrapped(c: Cut, name: string, factory: string)
    requires Cutting(c, name, factory) && c.left == factory + "(" && c.right == ")"
    ensures !Site(Whole(c), name, factory, |c.head| - 1)
  {
    OwnCloses(c);
    MatchAt(c, name, factory, Own(c));
    var o, close := |c.head| - 1, |c.head| + |Middle(c)|;
    assert Place(c, InTail(0)) == close;
    assert Whole(c)[o + 1..close] == Middle(c);
    MiddleStarts(c, factory);
    hide Middle, Whole, Match, CloseIn, Cutting, Strip;
    SiteIs(Whole(c), name, factory, o, close);
  }

  lemma MiddleStarts(c: Cut, factory: string)
    requires IsName(factory) && c.left == factory + "(" && c.right == ")"
    ensures factory + "(" <= Strip(Middle(c))
  {
    var s := Middle(c);
    assert s[0] == factory[0] && factory[0] in factory;
    assert StripLeft(s) == s;
    assert Last(s) == ')';
  }

  // Any other call is a site of both texts or of neither.
  lemma OtherSites(c: Cut, d: Cut, name: string, factory: string, p: Pos)
    requires Cutting(c, name, factory) && Cutting(d, name, factory) && Alike(c, d) && Inside(c, p) && p != Own(c)
    ensures Site(Whole(c), name, factory, Place(c, p)) <==> Site(Whole(d), name, factory, Place(d, p))
    ensures Inside(d, p)
  {
    SameOwn(c, d, name, factory);
    AlikeSites(c, d, name, factory, p);
    hide *;
    SiteAt(c, name, factory, p);
    SiteAt(d, name, factory, p);
  }

  lemma SameOwn(c: Cut, d: Cut, name: string, factory: string)
    requires Cutting(c, name, factory) && Alike(c, d)
    ensures c.head != [] && d.head != [] && Own(c) == Own(d)
  {
    hide Above, Balance;
  }

  // A site is not the call of the cut when that one is none.
  lemma SitePlaced(c: Cut, name: string, factory: string, q: nat) returns (p: Pos)
    requires Cutting(c, name, factory) && Site(Whole(c), name, factory, q) && !Site(Whole(c), name, factory, |c.head| - 1)
    ensures Inside(c, p) && Place(c, p) == q && c.head != [] && p != Own(c)
  {
    SiteCalls(Whole(c), name, factory, q);
    SameOwn(c, c, name, factory);
    hide Site, Whole, Match, Cutting, IsCall;
    p := CallPlaced(c, name, factory, q);
  }

  // Both texts nest their sites, or neither, when the call of the cut is a site of neither.
  lemma KeepsUnnested(c: Cut, d: Cut, name: string, factory: string)
    requires Cutting(c, name, factory) && Cutting(d, name, factory) && Alike(c, d) && Unnested(Whole(c), name, factory)
    requires !Site(Whole(c), name, factory, |c.head| - 1) && !Site(Whole(d), name, factory, |d.head| - 1)
    ensures Unnested(Whole(d), name, factory)
  {
    forall o, i | 0 <= o < i < |Whole(d)| && Site(Whole(d), name, factory, o) && Site(Whole(d), name, factory, i)
      ensures Match(Whole(d), o).value < i
    {
      KeepsOrder(c, d, name, factory, o, i);
      hide *;
    }
  }

  lemma KeepsOrder(c: Cut, d: Cut, name: string, factory: string, o: nat, i: nat)
    requires Cutting(c, name, factory) && Cutting(d, name, factory) && Alike(c, d) && Unnested(Whole(c), name, factory)
    requires !Site(Whole(d), name, factory, |d.head| - 1)
    requires o < i && Site(Whole(d), name, factory, o) && Site(Whole(d), name, factory, i)
    ensures Match(Whole(d), o).Some? && Match(Whole(d), o).value < i
  {
    hide *;
    var p := SitePlaced(d, name, factory, o);
    var q := SitePlaced(d, name, factory, i);
    AlikeBack(c, d);
    OtherSites(d, c, name, factory, p);
    OtherSites(d, c, name, factory, q);
    PlaceOrder(d, p, q);
    PlaceOrder(c, p, q);
    UnnestedAt(Whole(c), name, factory, Place(c, p), Place(c, q));
    SiteOnlyMatched(Whole(c), name, factory, Place(c, p));
    SiteOnlyMatched(Whole(d), name, factory, o);
    ClosedAt(c, name, factory, p);
    ClosedAt(d, name, factory, p);
    AlikeSites(c, d, name, factory, p);
    ClosedInside(c, name, p);
    PlaceOrder(c, CloseIn(c, p).value, q);
    ClosedInside(d, name, p);
    PlaceOrder(d, CloseIn(c, p).value, q);
  }

  lemma AlikeBack(c: Cut, d: Cut)
    requires Alike(c, d)
    ensures Alike(d, c)
  {
  }

  lemma ClosedInside(c: Cut, name: string, p: Pos)
    requires ClosedIn(c, name, p)
    ensures Inside(c, p) && CloseIn(c, p).Some? && Inside(c, CloseIn(c, p).value)
  {
    hide CallIn, CloseIn;
  }

  lemma UnnestedAt(text: string, name: string, factory: string, o: nat, i: nat)
    requires Unnested(text, name, factory) && o < i && Site(text, name, factory, o) && Site(text, name, factory, i)
    ensures Match(text, o).Some? && Match(text, o).value < i
  {
    SiteCalls(text, name, factory, o);
    SiteCalls(text, name, factory, i);
    hide Site, Match;
  }

  lemma KeepsNoSites(c: Cut, d: Cut, name: string, factory: string)
    requires Cutting(c, name, factory) && Cutting(d, name, factory) && Alike(c, d) && NoSites(Whole(c), name, factory, 0)
    requires !Site(Whole(d), name, factory, |d.head| - 1)
    ensures NoSites(Whole(d), name, factory, 0)
  {
    AlikeBack(c, d);
    forall i | 0 <= i < |Whole(d)|
      ensures !Site(Whole(d), name, factory, i)
    {
      if Site(Whole(d), name, factory, i) {
        var p := SitePlaced(d, name, factory, i);
        OtherSites(d, c, name, factory, p);
        SiteOnlyMatched(Whole(c), name, factory, Place(c, p));
        MatchedCalls(Whole(c), name, Place(c, p));
      }
      hide *;
    }
  }

  /* ---------- Two spellings ---------- */

  // Where the name stands: after a blank, with only blanks up to the parenthesis.
  predicate NameStands(text: string, name: string, start: nat, end: nat, o: nat) {
    && 0 < start < end <= o <= |text|
    && text[start..end] == name && IsSpace(text[start - 1])
    && (forall k :: end <= k < o ==> IsSpace(text[k]))
    && forall k :: start <= k < end ==> !IsSpace(text[k])
  }

  lemma NameInHead(s: string, name: string) returns (start: nat)
    requires Head(s, name) && IsName(name)
    ensures NameStands(s, name, start, start + |name|, |s|)
  {
    var j :| 3 < j <= |s| - |name| && HeadSplit(s, name, j);
    start := j;
    assert s[3..j][j - 4] == s[j - 1];
    forall k | j + |name| <= k < |s|
      ensures IsSpace(s[k])
    {
      assert s[j + |name|..][k - j - |name|] == s[k];
    }
    forall k | j <= k < j + |name|
      ensures !IsSpace(s[k])
    {
      assert s[j..j + |name|][k - j] == s[k] && s[k] in name;
    }
    hide IsSpace;
  }

  lemma NameShifts(text: string, name: string, i: nat, o: nat, start: nat, end: nat)
    requires i <= o <= |text| && NameStands(text[i..o], name, start, end, o - i)
    ensures NameStands(text, name, i + start, i + end, o)
  {
    hide IsSpace;
    SliceOfSlice(text, i, o, start, end);
    assert text[i..o][start - 1] == text[i + start - 1];
    forall k | i <= k < o
      ensures text[k] == text[i..o][k - i]
    {
    }
  }

  lemma SliceOfSlice(text: string, i: nat, o: nat, start: nat, end: nat)
    requires i <= o <= |text| && start <= end <= o - i
    ensures text[i..o][start..end] == text[i + start..i + end]
  {
    var one, other := text[i..o][start..end], text[i + start..i + end];
    assert |one| == |other|;
    assert forall k :: 0 <= k < |one| ==> one[k] == text[i + start + k] == other[k];
    assert one == other;
  }

  lemma NameBefore(text: string, name: string, o: nat) returns (start: nat, end: nat)
    requires IsCall(text, name, o) && IsName(name)
    ensures o < |text| && NameStands(text, name, start, end, o)
  {
    var i :| 0 <= i <= o && Head(text[i..o], name);
    hide Head, NameStands, IsName;
    start := NameInHead(text[i..o], name);
    end := start + |name|;
    NameShifts(text, name, i, o, start, end);
    start, end := i + start, i + end;
  }

  lemma BlankAfter(text: string, name: string, start: nat, end: nat, o: nat, k: nat)
    requires NameStands(text, name, start, end, o) && end <= k < o
    ensures k < |text| && IsSpace(text[k])
  {
    hide IsSpace;
  }

  lemma NoBlankIn(text: string, name: string, start: nat, end: nat, o: nat, k: nat)
    requires NameStands(text, name, start, end, o) && start <= k < end
    ensures k < |text| && !IsSpace(text[k])
  {
    hide IsSpace;
  }

  lemma NameOrder(text: string, name: string, start: nat, end: nat, o: nat)
    requires NameStands(text, name, start, end, o)
    ensures 0 < start < end <= o <= |text| && IsSpace(text[start - 1]) && text[start..end] == name
  {
    hide IsSpace;
  }

  lemma NameEnds(text: string, a: string, b: string, o: nat, s: nat, e: nat, t: nat, f: nat)
    requires NameStands(text, a, s, e, o) && NameStands(text, b, t, f, o)
    ensures f <= e
  {
    hide *;
    if e < f {
      NameOrder(text, b, t, f, o);
      BlankAfter(text, a, s, e, o, f - 1);
      NoBlankIn(text, b, t, f, o, f - 1);
    }
  }

  lemma NameStarts(text: string, a: string, b: string, o: nat, s: nat, t: nat, e: nat)
    requires NameStands(text, a, s, e, o) && NameStands(text, b, t, e, o)
    ensures s <= t
  {
    hide *;
    if t < s {
      NameOrder(text, a, s, e, o);
      NoBlankIn(text, b, t, e, o, s - 1);
    }
  }

  // A parenthesis opens a call of one name only.
  lemma OneName(text: string, a: string, b: string, o: nat)
    requires IsCall(text, a, o) && IsCall(text, b, o) && IsName(a) && IsName(b)
    ensures a == b
  {
    var s, e := NameBefore(text, a, o);
    var t, f := NameBefore(text, b, o);
    hide *;
    NameEnds(text, a, b, o, s, e, t, f);
    NameEnds(text, b, a, o, t, f, s, e);
    NameStarts(text, a, b, o, s, t, e);
    NameStarts(text, b, a, o, t, s, e);
    NameOrder(text, a, s, e, o);
    NameOrder(text, b, t, f, o);
  }

  lemma OtherIsNoSite(text: string, cls: string, other: string, factory: string, o: nat)
    requires IsCall(text, cls, o) && IsName(cls) && IsName(other) && cls != other
    ensures !Site(text, other, factory, o)
  {
    if Site(text, other, factory, o) {
      SiteCalls(text, other, factory, o);
      OneName(text, cls, other, o);
    }
    hide IsCall, Site;
  }

  /* ---------- One step of a pass ---------- */

  predicate Names(cls: string, other: string, factory: string) {
    IsName(cls) && IsName(other) && IsName(factory)
  }

  lemma StepCut(plain: string, wrapped: string, cls: string, factory: string, o: nat) returns (c: Cut)
    requires WrapsCall(plain, wrapped, cls, cls, factory, o) && IsName(factory)
    ensures Core(c) && Sides(c, factory) && Whole(c) == plain && |c.head| == o + 1
    ensures Core(Wrap(c, factory)) && Sides(Wrap(c, factory), factory) && Whole(Wrap(c, factory)) == wrapped && Alike(c, Wrap(c, factory))
    ensures IsCall(plain, cls, o) && IsCall(wrapped, cls, o)
  {
    MatchedCalls(plain, cls, o);
    var close := Match(plain, o).value;
    c := MakeCut(plain, factory, o, close);
    WrapIs(c, factory);
    assert wrapped == plain[..o + 1] + Wrapped(factory, plain[o + 1..close]) + plain[close..];
    assert Wrapped(factory, plain[o + 1..close]) == factory + "(" + c.inner + ")";
    hide Whole, Middle, Match, Strip, Core, Wrapped, Wrap;
    assert plain == plain[..o + 1] + plain[o + 1..];
    assert wrapped == plain[..o + 1] + (Wrapped(factory, plain[o + 1..close]) + plain[close..]);
    CallInPrefix(plain[..o + 1], plain[o + 1..], cls, o);
    CallInPrefix(plain[..o + 1], Wrapped(factory, plain[o + 1..close]) + plain[close..], cls, o);
  }

  /** Wrapping a call of one spelling keeps the sites of the other, and how they nest. */
  lemma StepKeepsOther(plain: string, wrapped: string, cls: string, other: string, factory: string, o: nat)
    requires WrapsCall(plain, wrapped, cls, cls, factory, o) && Names(cls, other, factory) && cls != other
    ensures Unnested(plain, other, factory) <==> Unnested(wrapped, other, factory)
    ensures NoSites(plain, other, factory, 0) <==> NoSites(wrapped, other, factory, 0)
  {
    var c := StepCut(plain, wrapped, cls, factory, o);
    var d := Wrap(c, factory);
    OtherIsNoSite(plain, cls, other, factory, o);
    OtherIsNoSite(wrapped, cls, other, factory, o);
    CutsFor(c, d, other, factory);
    hide *;
    AlikeBack(c, d);
    if Unnested(plain, other, factory) {
      KeepsUnnested(c, d, other, factory);
    }
    if Unnested(wrapped, other, factory) {
      KeepsUnnested(d, c, other, factory);
    }
    if NoSites(plain, other, factory, 0) {
      KeepsNoSites(c, d, other, factory);
    }
    if NoSites(wrapped, other, factory, 0) {
      KeepsNoSites(d, c, other, factory);
    }
  }

  lemma CutsFor(c: Cut, d: Cut, name: string, factory: string)
    requires Core(c) && Sides(c, factory) && Core(d) && Sides(d, factory) && Alike(c, d) && IsName(name) && IsName(factory)
    ensures Cutting(c, name, factory) && Cutting(d, name, factory) && |c.head| == |d.head|
  {
    hide Above, Balance;
  }

  // Wrapping a site of this spelling, the last one, leaves the others.
  lemma StepTakesOne(plain: string, wrapped: string, cls: string, factory: string, o: nat, q: nat)
    requires WrapsCall(plain, wrapped, cls, cls, factory, o) && IsName(cls) && IsName(factory)
    requires forall i :: o < i < |plain| ==> !Site(plain, cls, factory, i)
    ensures Site(wrapped, cls, factory, q) <==> q < o && Site(plain, cls, factory, q)
  {
    var c := StepCut(plain, wrapped, cls, factory, o);
    var d := Wrap(c, factory);
    CutsFor(c, d, cls, factory);
    WrapSides(c, factory);
    OwnIsWrapped(d, cls, factory);
    hide Wrap, Cutting, Whole, Site, Core, WrapsCall, IsName, Alike;
    if Site(wrapped, cls, factory, q) {
      var p := SitePlaced(d, cls, factory, q);
      AlikeBack(c, d);
      OtherSites(d, c, cls, factory, p);
      SiteOnlyMatched(plain, cls, factory, Place(c, p));
      MatchedCalls(plain, cls, Place(c, p));
      BeforeOwn(c, d, p);
    }
    if q < o && Site(plain, cls, factory, q) {
      assert Inside(c, InHead(q)) && InHead(q) != Own(c);
      OtherSites(c, d, cls, factory, InHead(q));
    }
  }

  lemma WrapSides(c: Cut, factory: string)
    ensures Wrap(c, factory).left == factory + "(" && Wrap(c, factory).right == ")"
  {
  }

  lemma BeforeOwn(c: Cut, d: Cut, p: Pos)
    requires c.head != [] && c.head == d.head && Inside(c, p) && p != Own(c)
    ensures Place(c, p) != |c.head| - 1
    ensures Place(c, p) < |c.head| ==> Place(d, p) == Place(c, p)
  {
  }

  /* ---------- A whole pass ---------- */

  // The calls a pass rewrites, with what is known about them.
  predicate PassCalls(text: string, cls: string, factory: string, calls: seq<Call>) {
    && calls == SitesFrom(text, cls, factory, 0)
    && Ordered(text, calls) && Within(text, calls) && FollowsFrom(calls, 0) && AllMatched(text, cls, calls)
  }

  lemma PassCallsAre(text: string, cls: string, factory: string)
    requires Sequential(SitesFrom(text, cls, factory, 0))
    ensures PassCalls(text, cls, factory, SitesFrom(text, cls, factory, 0))
  {
    var calls := SitesFrom(text, cls, factory, 0);
    SitesAreOrdered(text, cls, factory, 0);
    FollowsIsSequential(text, calls);
    forall i | 0 <= i < |calls|
      ensures Matched(text, cls, calls[i].open)
    {
      ListedIsSite(text, cls, factory, i);
      SiteOnlyMatched(text, cls, factory, calls[i].open);
    }
    hide SitesFrom, Matched, Site, Ordered, FollowsFrom;
  }

  // The first i calls open here.
  predicate Opens(calls: seq<Call>, i: nat, q: nat)
    requires i <= |calls|
  {
    exists j :: 0 <= j < i && calls[j].open == q
  }

  lemma {:induction false} PartlySites(text: string, cls: string, factory: string, calls: seq<Call>, i: nat, q: nat)
    requires PassCalls(text, cls, factory, calls) && i <= |calls| && IsName(cls) && IsName(factory)
    ensures Within(text, calls)
    ensures Site(Partly(text, factory, calls, i), cls, factory, q) <==> Opens(calls, i, q)
    decreases |calls| - i
  {
    if i == |calls| {
      PartlyEnds(text, factory, calls);
      AllOpen(text, cls, factory, q);
      hide *;
    } else {
      CallWraps(text, cls, factory, calls, i);
      hide *;
      var plain := Partly(text, factory, calls, i + 1);
      forall k: nat
        ensures Site(plain, cls, factory, k) ==> k <= calls[i].open
      {
        PartlySites(text, cls, factory, calls, i + 1, k);
        OpensUpTo(text, cls, factory, calls, i, k);
      }
      PartlySites(text, cls, factory, calls, i + 1, q);
      OpensUpTo(text, cls, factory, calls, i, q);
      StepTakesOne(plain, Partly(text, factory, calls, i), cls, factory, calls[i].open, q);
    }
  }

  lemma CallWraps(text: string, cls: string, factory: string, calls: seq<Call>, i: nat)
    requires PassCalls(text, cls, factory, calls) && i < |calls|
    ensures Within(text, calls)
    ensures WrapsCall(Partly(text, factory, calls, i + 1), Partly(text, factory, calls, i), cls, cls, factory, calls[i].open)
  {
    PartlyWraps(text, cls, factory, calls, i);
    hide *;
  }

  lemma AllOpen(text: string, cls: string, factory: string, q: nat)
    ensures Site(text, cls, factory, q) <==> Opens(SitesFrom(text, cls, factory, 0), |SitesFrom(text, cls, factory, 0)|, q)
  {
    var calls := SitesFrom(text, cls, factory, 0);
    if Site(text, cls, factory, q) {
      SiteOnlyMatched(text, cls, factory, q);
      MatchedCalls(text, cls, q);
      SiteListed(text, cls, factory, 0, q);
      hide SitesFrom, Site, Match;
      var j :| 0 <= j < |calls| && calls[j] == Call(q, Match(text, q).value);
    }
    if Opens(calls, |calls|, q) {
      hide SitesFrom, Site, Match;
      var j :| 0 <= j < |calls| && calls[j].open == q;
      ListedIsSite(text, cls, factory, j);
    }
  }

  lemma OpensUpTo(text: string, cls: string, factory: string, calls: seq<Call>, i: nat, q: nat)
    requires PassCalls(text, cls, factory, calls) && i < |calls|
    ensures Opens(calls, i + 1, q) ==> q <= calls[i].open
    ensures Opens(calls, i, q) <==> q < calls[i].open && Opens(calls, i + 1, q)
  {
    OpensInOrder(text, calls, i, q);
    hide *;
  }

  lemma OpensInOrder(text: string, calls: seq<Call>, i: nat, q: nat)
    requires Ordered(text, calls) && i < |calls|
    ensures Opens(calls, i + 1, q) ==> q <= calls[i].open
    ensures Opens(calls, i, q) <==> q < calls[i].open && Opens(calls, i + 1, q)
  {
    hide Closed;
  }

  /** A pass whose sites do not nest leaves no site of its spelling. */
  lemma PassLeavesNoSites(text: string, cls: string, factory: string)
    requires IsName(cls) && IsName(factory) && Sequential(SitesFrom(text, cls, factory, 0))
    ensures NoSites(RewritePass(text, cls, factory), cls, factory, 0)
  {
    var calls := SitesFrom(text, cls, factory, 0);
    PassCallsAre(text, cls, factory);
    PartlyEnds(text, factory, calls);
    var rewritten := RewritePass(text, cls, factory);
    assert rewritten == Partly(text, factory, calls, 0);
    hide Partly, SitesFrom, PassCalls, Render;
    forall q | 0 <= q < |rewritten|
      ensures !Site(rewritten, cls, factory, q)
    {
      PartlySites(text, cls, factory, calls, 0, q);
      hide Site;
    }
  }

  lemma {:induction false} PartlyKeepsOther(
    text: string, cls: string, other: string, factory: string, calls: seq<Call>, i: nat)
    requires PassCalls(text, cls, factory, calls) && i <= |calls| && Names(cls, other, factory) && cls != other
    ensures Within(text, calls)
    ensures Unnested(text, other, factory) <==> Unnested(Partly(text, factory, calls, i), other, factory)
    ensures NoSites(text, other, factory, 0) <==> NoSites(Partly(text, factory, calls, i), other, factory, 0)
    decreases |calls| - i
  {
    if i == |calls| {
      PartlyIsText(text, cls, factory, calls);
      hide *;
    } else {
      CallWraps(text, cls, factory, calls, i);
      hide *;
      PartlyKeepsOther(text, cls, other, factory, calls, i + 1);
      StepKeepsOther(Partly(text, factory, calls, i + 1), Partly(text, factory, calls, i), cls, other, factory, calls[i].open);
    }
  }

  lemma PartlyIsText(text: string, cls: string, factory: string, calls: seq<Call>)
    requires PassCalls(text, cls, factory, calls)
    ensures Within(text, calls) && Partly(text, factory, calls, |calls|) == text
  {
    PartlyEnds(text, factory, calls);
    hide *;
  }

  /** Such a pass keeps the sites of another spelling, and how they nest. */
  lemma PassKeepsOther(text: string, cls: string, other: string, factory: string)
    requires Names(cls, other, factory) && cls != other && Sequential(SitesFrom(text, cls, factory, 0))
    ensures Unnested(text, other, factory) <==> Unnested(RewritePass(text, cls, factory), other, factory)
    ensures NoSites(text, other, factory, 0) <==> NoSites(RewritePass(text, cls, factory), other, factory, 0)
  {
    var calls := SitesFrom(text, cls, factory, 0);
    PassCallsAre(text, cls, factory);
    PartlyEnds(text, factory, calls);
    assert RewritePass(text, cls, factory) == Partly(text, factory, calls, 0);
    hide *;
    PartlyKeepsOther(text, cls, other, factory, calls, 0);
  }
}
