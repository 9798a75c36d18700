/**
 What one pass of the constructor-call rewriter makes of a text with a single call, spelled out from
 the call's parts (nodes/remediation.py).
 */
module RewriteCall {
  import opened Collections
  import opened Text
  import opened JavaRewrite

  predicate NeverNegative(s: string) {
    Balance(s) == 0 && forall k :: 0 <= k <= |s| ==> Balance(s[..k]) >= 0
  }

  // A call in a text, in its parts.
  datatype Parts = Parts(front: string, gap: string, blanks: string, arguments: string, back: string)

  function Opening(cls: string, p: Parts): string {
    "new" + p.gap + cls + p.blanks
  }

  function TextOf(cls: string, p: Parts, inner: string): string {
    p.front + Opening(cls, p) + "(" + inner + ")" + p.back
  }

  predicate NewAt(text: string, k: int) {
    0 <= k && k + 3 <= |text| && text[k..k + 3] == "new"
  }

  // The arguments are balanced, and `new` occurs nowhere else in the text.
  ghost predicate WellFormed(cls: string, p: Parts) {
    && IsName(cls) && p.gap != "" && Blank(p.gap) && Blank(p.blanks) && NeverNegative(p.arguments)
    && forall k :: NewAt(TextOf(cls, p, p.arguments), k) ==> k == |p.front|
  }

  lemma OpeningIsHead(cls: string, p: Parts)
    requires p.gap != "" && Blank(p.gap) && Blank(p.blanks)
    ensures Head(Opening(cls, p), cls)
  {
    var s, j := Opening(cls, p), 3 + |p.gap|;
    assert s[..3] == "new" && s[3..j] == p.gap && s[j..j + |cls|] == cls && s[j + |cls|..] == p.blanks;
    assert HeadSplit(s, cls, j);
  }

  lemma CallFound(cls: string, p: Parts)
    requires WellFormed(cls, p)
    ensures var text := TextOf(cls, p, p.arguments); var o := |p.front| + |Opening(cls, p)|;
      && o < |text| && text[o] == '(' && IsCall(text, cls, o) && text[|p.front|..o] == Opening(cls, p)
  {
    OpeningIsHead(cls, p);
    var text, o := TextOf(cls, p, p.arguments), |p.front| + |Opening(cls, p)|;
    assert text[|p.front|..o] == Opening(cls, p);
    hide Head, NeverNegative;
  }

  lemma StartsWithNew(text: string, i: nat, k: nat, cls: string)
    requires i <= k <= |text| && Head(text[i..k], cls)
    ensures NewAt(text, i)
  {
    assert text[i..k][..3] == text[i..i + 3];
  }

  lemma NoParenthesisInside(text: string, i: nat, k: nat, m: nat, cls: string)
    requires IsName(cls) && i <= m < k <= |text| && Head(text[i..k], cls)
    ensures !IsParenthesis(text[m])
  {
    HeadHasNoParenthesis(text[i..k], cls);
    assert text[i..k][m - i] in text[i..k];
    hide Head, IsName;
  }

  // Two calls that begin with the same `new` have the same parenthesis.
  lemma SameParenthesis(text: string, i: nat, o: nat, k: nat, cls: string)
    requires IsName(cls) && i <= o < |text| && i <= k < |text| && text[o] == '(' && text[k] == '('
    requires Head(text[i..o], cls) && Head(text[i..k], cls)
    ensures k == o
  {
    hide Head, IsName;
    if k > o {
      NoParenthesisInside(text, i, k, o, cls);
    } else if k < o {
      NoParenthesisInside(text, i, o, k, cls);
    }
  }

  lemma OnlyCall(cls: string, p: Parts, k: nat)
    requires WellFormed(cls, p)
    requires IsCall(TextOf(cls, p, p.arguments), cls, k)
    ensures k == |p.front| + |Opening(cls, p)|
  {
    var text, o := TextOf(cls, p, p.arguments), |p.front| + |Opening(cls, p)|;
    CallFound(cls, p);
    OpeningIsHead(cls, p);
    hide Head, TextOf, Opening, NewAt, Blank, NeverNegative, IsName;
    var i :| 0 <= i <= k && Head(text[i..k], cls);
    StartsWithNew(text, i, k, cls);
    assert i == |p.front|;
    SameParenthesis(text, i, o, k, cls);
  }

  lemma Slices(text: string, a: string, b: string, c: string)
    requires text == a + "(" + b + ")" + c
    ensures var o := |a|; var close := o + 1 + |b|;
      && close < |text| && text[o] == '(' && text[close] == ')' && text[o + 1..close] == b
      && text[..o + 1] == a + "(" && text[close..] == ")" + c
  {
  }

  lemma SlicePrefix(text: string, o: nat, close: nat, j: nat)
    requires o < j <= close <= |text|
    ensures text[o + 1..j] == text[o + 1..close][..j - o - 1] && text[o..o] == []
  {
    var inner := text[o + 1..close];
    assert forall m :: 0 <= m < j - o - 1 ==> inner[m] == text[o + 1 + m];
  }

  lemma DepthInside(text: string, o: nat, close: nat, j: nat)
    requires o < j <= close <= |text| && text[o] == '(' && NeverNegative(text[o + 1..close])
    ensures Balance(text[o..j]) > 0
  {
    hide *;
    BalanceSplit(text, o, o + 1, j);
    BalanceNext(text, o, o);
    SlicePrefix(text, o, close, j);
    Prefixes(text[o + 1..close], j - o - 1);
  }

  lemma CloseMatches(text: string, o: nat, close: nat)
    requires o < close < |text| && text[o] == '(' && text[close] == ')' && NeverNegative(text[o + 1..close])
    ensures Match(text, o) == Some(close)
  {
    hide *;
    forall j | o < j <= close
      ensures Balance(text[o..j]) > 0
    {
      DepthInside(text, o, close, j);
    }
    Prefixes(text[o + 1..close], 0);
    MatchIs(text, o, close);
  }

  lemma CloseFound(cls: string, p: Parts)
    requires WellFormed(cls, p)
    ensures var text := TextOf(cls, p, p.arguments); var o := |p.front| + |Opening(cls, p)|; var close := o + 1 + |p.arguments|;
      && close < |text| && Match(text, o) == Some(close) && text[o + 1..close] == p.arguments
      && text[..o + 1] == p.front + Opening(cls, p) + "(" && text[close..] == ")" + p.back
  {
    var text, front := TextOf(cls, p, p.arguments), p.front + Opening(cls, p);
    assert text == front + "(" + p.arguments + ")" + p.back;
    hide *;
    Slices(text, front, p.arguments, p.back);
    ArgumentsBalance(cls, p);
    CloseMatches(text, |front|, |front| + 1 + |p.arguments|);
  }

  lemma ArgumentsBalance(cls: string, p: Parts)
    requires WellFormed(cls, p)
    ensures NeverNegative(p.arguments)
  {
  }

  lemma Prefixes(s: string, k: nat)
    requires NeverNegative(s) && k <= |s|
    ensures Balance(s[..k]) >= 0 && Balance(s) == 0 && Balance([]) == 0
  {
  }

  lemma {:induction false} OneSite(text: string, cls: string, factory: string, o: nat, k: nat)
    requires o < |text| && forall j: nat :: Site(text, cls, factory, j) ==> j == o
    ensures SitesFrom(text, cls, factory, k) ==
      if k <= o && Site(text, cls, factory, o) then [Call(o, Match(text, o).value)] else []
    decreases |text| - k
  {
    if k < |text| {
      OneSite(text, cls, factory, o, k + 1);
    }
    hide Site;
  }

  lemma InnerReplaced(cls: string, p: Parts, inner: string)
    ensures TextOf(cls, p, inner) == p.front + Opening(cls, p) + "(" + inner + (")" + p.back)
  {
    hide Opening;
    assert TextOf(cls, p, inner) == p.front + Opening(cls, p) + "(" + inner + ")" + p.back;
  }

  lemma SiteIsCall(text: string, cls: string, factory: string, k: nat)
    requires Site(text, cls, factory, k)
    ensures IsCall(text, cls, k)
  {
    hide IsCall, Strip;
  }

  lemma LoneSite(cls: string, factory: string, p: Parts)
    requires WellFormed(cls, p)
    ensures var text := TextOf(cls, p, p.arguments); var o := |p.front| + |Opening(cls, p)|;
      && (Site(text, cls, factory, o) <==> !(factory + "(" <= Strip(p.arguments)))
      && SitesFrom(text, cls, factory, 0) ==
           if factory + "(" <= Strip(p.arguments) then [] else [Call(o, o + 1 + |p.arguments|)]
  {
    var text, o := TextOf(cls, p, p.arguments), |p.front| + |Opening(cls, p)|;
    hide *;
    CallFound(cls, p);
    CloseFound(cls, p);
    SiteExactly(text, cls, factory, o);
    forall k: nat | Site(text, cls, factory, k)
      ensures k == o
    {
      SiteIsCall(text, cls, factory, k);
      OnlyCall(cls, p, k);
    }
    OneSite(text, cls, factory, o, 0);
  }

  /** The first pass looks for the last part of a class's qualified name. */
  lemma {:induction false} SimpleNameIs(package: string, name: string)
    requires '.' !in name
    ensures SimpleName(name) == name && SimpleName(package + "." + name) == name
    decreases |name|
  {
    var qualified := package + "." + name;
    if name == "" {
      assert qualified[|package|] == '.';
    } else {
      var n := |name| - 1;
      assert name == name[..n] + [name[n]] && name[n] in name;
      assert qualified[..|qualified| - 1] == package + "." + name[..n];
      SimpleNameIs(package, name[..n]);
    }
  }

  /** The arguments of a lone call are trimmed and wrapped in the factory call, and nothing else changes;
      a call whose arguments start with the factory call is left alone. */
  lemma LoneCallIsWrapped(cls: string, factory: string, p: Parts)
    requires WellFormed(cls, p)
    ensures RewritePass(TextOf(cls, p, p.arguments), cls, factory) ==
      TextOf(cls, p, if factory + "(" <= Strip(p.arguments) then p.arguments else factory + "(" + Strip(p.arguments) + ")")
  {
    var text, o := TextOf(cls, p, p.arguments), |p.front| + |Opening(cls, p)|;
    var wrapped := factory + "(" + Strip(p.arguments) + ")";
    PassIsRender(text, cls, factory);
    hide *;
    LoneSite(cls, factory, p);
    CloseFound(cls, p);
    RenderLone(text, factory, Call(o, o + 1 + |p.arguments|));
    InnerReplaced(cls, p, wrapped);
  }

  lemma PassIsRender(text: string, cls: string, factory: string)
    ensures RewritePass(text, cls, factory) == Render(text, factory, 0, SitesFrom(text, cls, factory, 0))
  {
    hide Render, SitesFrom;
  }

  lemma RenderLone(text: string, factory: string, call: Call)
    requires call.open < call.close < |text|
    ensures Render(text, factory, 0, [call]) ==
      text[..call.open + 1] + (factory + "(" + Strip(text[call.open + 1..call.close]) + ")") + text[call.close..]
    ensures Render(text, factory, 0, []) == text
  {
    assert [call][1..] == [];
    hide Strip;
  }
}
