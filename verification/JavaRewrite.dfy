/**
 The Java constructor-call rewriter (nodes/remediation.py): one pass wraps the arguments of every
 call `new C (...)` in a factory call.
 */
module JavaRewrite {
  import opened Collections
  import opened Text

  // Depth gained over the text: opening minus closing parentheses.
  function Balance(s: string): int {
    if s == [] then 0
    else Balance(s[..|s| - 1]) + (if Last(s) == '(' then 1 else if Last(s) == ')' then -1 else 0)
  }

  lemma {:induction false} BalanceConcat(a: string, b: string)
    ensures Balance(a + b) == Balance(a) + Balance(b)
  {
    if b == [] {
      assert a + b == a;
    } else {
      assert (a + b)[..|a + b| - 1] == a + b[..|b| - 1];
      BalanceConcat(a, b[..|b| - 1]);
    }
  }

  lemma BalanceSplit(s: string, i: nat, j: nat, k: nat)
    requires i <= j <= k <= |s|
    ensures Balance(s[i..k]) == Balance(s[i..j]) + Balance(s[j..k])
  {
    assert s[i..k] == s[i..j] + s[j..k];
    BalanceConcat(s[i..j], s[j..k]);
  }

  lemma BalanceNext(s: string, i: nat, j: nat)
    requires i <= j < |s|
    ensures Balance(s[i..j + 1]) == Balance(s[i..j]) + (if s[j] == '(' then 1 else if s[j] == ')' then -1 else 0)
  {
    assert s[i..j + 1][..j - i] == s[i..j];
  }

  /* ---------- Matching parentheses ---------- */

  predicate ClosesAt(text: string, open: nat, k: nat) {
    open <= k < |text| && text[k] == ')' && Balance(text[open..k + 1]) == 0
  }

  // The least closing index from k on.
  function FirstClose(text: string, open: nat, k: nat): (r: Option<nat>)
    requires open <= k <= |text|
    ensures r.Some? ==> r.value >= k && ClosesAt(text, open, r.value) && forall j :: k <= j < r.value ==> !ClosesAt(text, open, j)
    ensures r.None? ==> forall j :: k <= j ==> !ClosesAt(text, open, j)
    decreases |text| - k
  {
    if k == |text| then None
    else if ClosesAt(text, open, k) then Some(k)
    else FirstClose(text, open, k + 1)
  }

  function Match(text: string, open: nat): (r: Option<nat>)
    requires open <= |text|
    ensures r.Some? ==> ClosesAt(text, open, r.value) && forall j :: open <= j < r.value ==> !ClosesAt(text, open, j)
    ensures r.None? ==> forall j :: open <= j ==> !ClosesAt(text, open, j)
  {
    FirstClose(text, open, open)
  }

  method FindMatchingParenthesis(text: string, open: nat) returns (close: Option<nat>)
    requires open <= |text|
    ensures close.Some? ==> ClosesAt(text, open, close.value) && forall j :: open <= j < close.value ==> !ClosesAt(text, open, j)
    ensures close.None? ==> forall j :: open <= j ==> !ClosesAt(text, open, j)
    ensures close == Match(text, open)
  {
    var depth := 0;
    for index := open to |text|
      invariant depth == Balance(text[open..index])
      invariant forall j :: open <= j < index ==> !ClosesAt(text, open, j)
    {
      BalanceNext(text, open, index);
      if text[index] == '(' {
        depth := depth + 1;
      } else if text[index] == ')' {
        depth := depth - 1;
        if depth == 0 {
          return Some(index);
        }
      }
    }
    return None;
  }

  // Past an opening parenthesis the depth stays positive up to where it is closed.
  lemma {:induction false} PositiveInside(text: string, open: nat, j: nat)
    requires open < j <= |text| && text[open] == '('
    requires forall k :: open <= k < j - 1 ==> !ClosesAt(text, open, k)
    requires j - 1 < |text| && !ClosesAt(text, open, j - 1)
    ensures Balance(text[open..j]) > 0
  {
    BalanceNext(text, open, j - 1);
    if j - 1 == open {
      assert text[open..open] == [];
    } else {
      PositiveInside(text, open, j - 1);
    }
  }

  // What a match means for the depth of every prefix of the span.
  lemma SpanDepth(text: string, open: nat, close: nat)
    requires open < |text| && text[open] == '(' && Match(text, open) == Some(close)
    ensures open < close < |text| && text[close] == ')'
    ensures forall j :: open < j <= close ==> Balance(text[open..j]) > 0
    ensures Balance(text[open + 1..close]) == 0
  {
    BalanceNext(text, open, open);
    assert text[open..open] == [];
    forall j | open < j <= close
      ensures Balance(text[open..j]) > 0
    {
      PositiveInside(text, open, j);
    }
    BalanceNext(text, open, close);
    BalanceSplit(text, open, open + 1, close);
  }

  lemma MatchIs(text: string, open: nat, close: nat)
    requires open < close < |text| && text[open] == '(' && text[close] == ')'
    requires forall j :: open < j <= close ==> Balance(text[open..j]) > 0
    requires Balance(text[open + 1..close]) == 0
    ensures Match(text, open) == Some(close)
  {
    BalanceNext(text, open, open);
    assert text[open..open] == [];
    BalanceSplit(text, open, open + 1, close);
    BalanceNext(text, open, close);
    assert ClosesAt(text, open, close);
    forall k | open <= k < close
      ensures !ClosesAt(text, open, k)
    {
      assert open < k + 1 <= close;
    }
  }

  lemma MatchPrefix(a: string, b: string, c: string, o: nat)
    requires o < |a|
    requires Match(a + b, o).Some? && Match(a + b, o).value < |a|
    ensures Match(a + c, o) == Match(a + b, o)
  {
    var close := Match(a + b, o).value;
    forall k | o <= k <= close
      ensures ClosesAt(a + c, o, k) <==> ClosesAt(a + b, o, k)
    {
      assert (a + c)[o..k + 1] == a[o..k + 1] == (a + b)[o..k + 1];
    }
    assert ClosesAt(a + c, o, close);
  }

  /* ---------- Finding the calls ---------- */

  predicate Blank(s: string) {
    forall i :: 0 <= i < |s| ==> IsSpace(s[i])
  }

  predicate IsParenthesis(ch: char) {
    ch == '(' || ch == ')'
  }

  // A Java name: not empty, no blanks and no parentheses.
  predicate IsName(s: string) {
    s != [] && forall ch :: ch in s ==> !IsSpace(ch) && !IsParenthesis(ch)
  }

  // `new`, blanks, the class, blanks.
  predicate Head(s: string, cls: string) {
    exists j :: 3 < j <= |s| - |cls| && HeadSplit(s, cls, j)
  }

  predicate HeadSplit(s: string, cls: string, j: int) {
    && 3 < j <= |s| - |cls|
    && s[..3] == "new" && Blank(s[3..j]) && s[j..j + |cls|] == cls && Blank(s[j + |cls|..])
  }

  // The regular expression matches a text that ends with the parenthesis at o.
  predicate IsCall(text: string, cls: string, o: nat) {
    o < |text| && text[o] == '(' && exists i :: 0 <= i <= o && Head(text[i..o], cls)
  }

  lemma HeadHasNoParenthesis(s: string, cls: string)
    requires Head(s, cls) && IsName(cls)
    ensures forall ch :: ch in s ==> !IsParenthesis(ch)
    ensures exists k :: 0 <= k < |s| && IsSpace(s[k])
  {
    var j :| 3 < j <= |s| - |cls| && HeadSplit(s, cls, j);
    assert s[3..j][0] == s[3];
    forall k | 0 <= k < |s|
      ensures !IsParenthesis(s[k])
    {
      if k < 3 {
        assert s[..3][k] == s[k];
      } else if k < j {
        assert s[3..j][k - 3] == s[k];
      } else if k < j + |cls| {
        assert s[j..j + |cls|][k - j] == s[k];
        assert s[k] in cls;
      } else {
        assert s[j + |cls|..][k - j - |cls|] == s[k];
      }
    }
  }

  // Whether a parenthesis opens a call depends only on the text since the parenthesis before it.
  lemma CallIsLocal(a: string, b: string, cls: string, o: nat)
    requires IsName(cls) && o < |b|
    requires a == [] || IsParenthesis(Last(a)) || (o > 0 && IsParenthesis(b[0]))
    ensures IsCall(a + b, cls, |a| + o) <==> IsCall(b, cls, o)
  {
    if IsCall(b, cls, o) {
      var i :| 0 <= i <= o && Head(b[i..o], cls);
      assert (a + b)[|a| + i..|a| + o] == b[i..o];
    }
    if IsCall(a + b, cls, |a| + o) {
      var i :| 0 <= i <= |a| + o && Head((a + b)[i..|a| + o], cls);
      if i >= |a| {
        assert (a + b)[i..|a| + o] == b[i - |a|..o];
      } else {
        HeadStaysInside(a, b, cls, o, i);
      }
    }
    hide Head;
  }

  lemma HeadStaysInside(a: string, b: string, cls: string, o: nat, i: nat)
    requires IsName(cls) && o < |b| && i < |a|
    requires IsParenthesis(Last(a)) || (o > 0 && IsParenthesis(b[0]))
    ensures !Head((a + b)[i..|a| + o], cls)
  {
    var s := (a + b)[i..|a| + o];
    assert s[|a| - 1 - i] == Last(a);
    assert o > 0 ==> s[|a| - i] == b[0];
    if Head(s, cls) {
      HeadHasNoParenthesis(s, cls);
      assert false;
    }
    hide Head;
  }

  lemma CallInPrefix(a: string, b: string, cls: string, o: nat)
    requires o < |a|
    ensures IsCall(a + b, cls, o) <==> IsCall(a, cls, o)
  {
    assert forall i :: 0 <= i <= o ==> (a + b)[i..o] == a[i..o];
  }

  /* ---------- The rewrite ---------- */

  function Arguments(text: string, call: Call): string
    requires call.open < call.close <= |text|
  {
    text[call.open + 1..call.close]
  }

  function Wrapped(factory: string, arguments: string): string {
    factory + "(" + Strip(arguments) + ")"
  }

  datatype Call = Call(open: nat, close: nat)

  predicate Matched(text: string, cls: string, o: nat) {
    IsCall(text, cls, o) && Match(text, o).Some?
  }

  // The call at o is one the pass rewrites: it is closed, and not yet wrapped.
  predicate Site(text: string, cls: string, factory: string, o: nat) {
    && Matched(text, cls, o)
    && o < Match(text, o).value
    && !(factory + "(" <= Strip(text[o + 1..Match(text, o).value]))
  }

  function SitesFrom(text: string, cls: string, factory: string, k: nat): (calls: seq<Call>)
    ensures forall i :: 0 <= i < |calls| ==>
      && k <= calls[i].open < calls[i].close < |text|
      && Site(text, cls, factory, calls[i].open) && Match(text, calls[i].open) == Some(calls[i].close)
    decreases |text| - k
  {
    if k >= |text| then []
    else if Site(text, cls, factory, k) then [Call(k, Match(text, k).value)] + SitesFrom(text, cls, factory, k + 1)
    else SitesFrom(text, cls, factory, k + 1)
  }

  // text[i:j], empty when i > j
  function Slice(text: string, i: nat, j: nat): string
    requires i <= |text| && j <= |text|
  {
    if i <= j then text[i..j] else []
  }

  predicate Within(text: string, calls: seq<Call>) {
    forall i :: 0 <= i < |calls| ==> calls[i].open < calls[i].close < |text|
  }

  // The text from a cursor on, with the remaining calls rewritten.
  function Render(text: string, factory: string, cursor: nat, calls: seq<Call>): string
    requires cursor <= |text| && Within(text, calls)
    decreases |calls|
  {
    if calls == [] then text[cursor..]
    else
      Slice(text, cursor, calls[0].open + 1) + Wrapped(factory, Arguments(text, calls[0]))
      + Render(text, factory, calls[0].close, calls[1..])
  }

  function RewritePass(text: string, cls: string, factory: string): string {
    Render(text, factory, 0, SitesFrom(text, cls, factory, 0))
  }

  function Join(segments: seq<string>): string {
    if segments == [] then [] else Join(segments[..|segments| - 1]) + Last(segments)
  }

  // The segments hold the rewritten text up to the cursor, with the sites from o on still to come.
  ghost predicate RewrittenUpTo(text: string, cls: string, factory: string, segments: seq<string>, cursor: nat, o: nat) {
    cursor <= |text| &&
    RewritePass(text, cls, factory) == Join(segments) + Render(text, factory, cursor, SitesFrom(text, cls, factory, o))
  }

  method RewriteCallsOf(text: string, cls: string, factory: string) returns (rewritten: string)
    ensures rewritten == RewritePass(text, cls, factory)
  {
    var cursor: nat := 0;
    var segments: seq<string> := [];
    RewriteStarts(text, cls, factory);
    hide *;
    for o := 0 to |text|
      invariant cursor <= |text|
      invariant RewrittenUpTo(text, cls, factory, segments, cursor, o)
      invariant segments == [] ==> cursor == 0
    {
      SiteExactly(text, cls, factory, o);
      if !IsCall(text, cls, o) {
        SkipSite(text, cls, factory, segments, cursor, o);
        continue;
      }
      var close := FindMatchingParenthesis(text, o);
      if close == None {
        SkipSite(text, cls, factory, segments, cursor, o);
        continue;
      }
      var arguments := text[o + 1..close.value];
      if factory + "(" <= Strip(arguments) {
        SkipSite(text, cls, factory, segments, cursor, o);
        continue;
      }
      RewriteSite(text, cls, factory, segments, cursor, o);
      segments := segments + [Slice(text, cursor, o + 1)] + [Wrapped(factory, arguments)];
      cursor := close.value;
    }
    RewriteEnds(text, cls, factory, segments, cursor);
    if segments == [] {
      return text;
    }
    segments := segments + [text[cursor..]];
    return Join(segments);
  }

  // cls.rsplit(".", maxsplit=1)[-1]
  function SimpleName(cls: string): string {
    if cls == [] then [] else if Last(cls) == '.' then [] else SimpleName(cls[..|cls| - 1]) + [Last(cls)]
  }

  function Rewritten(text: string, cls: string, factory: string): string {
    RewritePass(RewritePass(text, SimpleName(cls), factory), cls, factory)
  }

  method RewriteJavaConstructorCalls(text: string, cls: string, factory: string) returns (rewritten: string)
    ensures rewritten == Rewritten(text, cls, factory)
  {
    rewritten := RewriteCallsOf(text, SimpleName(cls), factory);
    rewritten := RewriteCallsOf(rewritten, cls, factory);
  }

  lemma SkipSite(text: string, cls: string, factory: string, segments: seq<string>, cursor: nat, o: nat)
    requires o < |text| && !Site(text, cls, factory, o)
    requires RewrittenUpTo(text, cls, factory, segments, cursor, o)
    ensures RewrittenUpTo(text, cls, factory, segments, cursor, o + 1)
  {
    SitesStep(text, cls, factory, o);
    hide Site, Render, RewritePass;
  }

  lemma RewriteSite(text: string, cls: string, factory: string, segments: seq<string>, cursor: nat, o: nat)
    requires o < |text| && Site(text, cls, factory, o) && RewrittenUpTo(text, cls, factory, segments, cursor, o)
    ensures var close := Match(text, o).value;
      RewrittenUpTo(text, cls, factory,
        segments + [Slice(text, cursor, o + 1)] + [Wrapped(factory, text[o + 1..close])], close, o + 1)
  {
    hide *;
    SiteExactly(text, cls, factory, o);
    var close := Match(text, o).value;
    UpToIs(text, cls, factory, segments, cursor, o);
    RenderStep(text, cls, factory, cursor, o);
    var head, wrapped := Slice(text, cursor, o + 1), Wrapped(factory, text[o + 1..close]);
    UpToIs(text, cls, factory, segments + [head] + [wrapped], close, o + 1);
    JoinTwo(segments, head, wrapped, Render(text, factory, close, SitesFrom(text, cls, factory, o + 1)));
  }

  lemma RewriteStarts(text: string, cls: string, factory: string)
    ensures RewrittenUpTo(text, cls, factory, [], 0, 0)
  {
    UpToIs(text, cls, factory, [], 0, 0);
    hide RewrittenUpTo, Render, SitesFrom;
    assert [] + RewritePass(text, cls, factory) == RewritePass(text, cls, factory);
  }

  lemma RewriteEnds(text: string, cls: string, factory: string, segments: seq<string>, cursor: nat)
    requires cursor <= |text| && RewrittenUpTo(text, cls, factory, segments, cursor, |text|)
    requires segments == [] ==> cursor == 0
    ensures RewritePass(text, cls, factory) == if segments == [] then text else Join(segments + [text[cursor..]])
  {
    UpToIs(text, cls, factory, segments, cursor, |text|);
    NothingLeft(text, cls, factory, cursor);
    hide *;
    JoinOne(segments, text[cursor..]);
    assert text[0..] == text && [] + text == text;
  }

  lemma NothingLeft(text: string, cls: string, factory: string, cursor: nat)
    requires cursor <= |text|
    ensures SitesFrom(text, cls, factory, |text|) == [] && Render(text, factory, cursor, []) == text[cursor..]
  {
    hide Site, Wrapped;
  }

  lemma UpToIs(text: string, cls: string, factory: string, segments: seq<string>, cursor: nat, o: nat)
    ensures Within(text, SitesFrom(text, cls, factory, o))
    ensures RewrittenUpTo(text, cls, factory, segments, cursor, o) <==>
      && cursor <= |text|
      && RewritePass(text, cls, factory) == Join(segments) + Render(text, factory, cursor, SitesFrom(text, cls, factory, o))
  {
    hide Render, RewritePass, Join, Site;
  }

  lemma JoinOne(segments: seq<string>, last: string)
    ensures Join(segments + [last]) == Join(segments) + last
    ensures Join([]) == []
  {
    var all := segments + [last];
    assert all[..|all| - 1] == segments;
  }

  lemma JoinTwo(segments: seq<string>, a: string, b: string, rest: string)
    ensures Join(segments + [a] + [b]) + rest == Join(segments) + (a + b + rest)
  {
    var one := segments + [a];
    assert one[..|one| - 1] == segments;
    assert (one + [b])[..|one + [b]| - 1] == one;
  }

  lemma SiteExactly(text: string, cls: string, factory: string, o: nat)
    requires o < |text|
    ensures IsCall(text, cls, o) && Match(text, o).Some? ==> o < Match(text, o).value < |text|
    ensures Site(text, cls, factory, o) <==>
      IsCall(text, cls, o) && Match(text, o).Some? && !(factory + "(" <= Strip(text[o + 1..Match(text, o).value]))
  {
  }

  lemma SitesStep(text: string, cls: string, factory: string, o: nat)
    requires o < |text|
    ensures SitesFrom(text, cls, factory, o) ==
      (if Site(text, cls, factory, o) then [Call(o, Match(text, o).value)] else []) + SitesFrom(text, cls, factory, o + 1)
  {
  }

  lemma RenderStep(text: string, cls: string, factory: string, cursor: nat, o: nat)
    requires cursor <= |text| && o < |text| && Site(text, cls, factory, o)
    ensures var close := Match(text, o).value;
      Render(text, factory, cursor, SitesFrom(text, cls, factory, o)) ==
      Slice(text, cursor, o + 1) + Wrapped(factory, text[o + 1..close])
      + Render(text, factory, close, SitesFrom(text, cls, factory, o + 1))
  {
    SitesStep(text, cls, factory, o);
    RenderCons(text, factory, cursor, Call(o, Match(text, o).value), SitesFrom(text, cls, factory, o + 1));
    hide *;
  }

  lemma RenderCons(text: string, factory: string, cursor: nat, call: Call, rest: seq<Call>)
    requires cursor <= |text| && Within(text, [call] + rest)
    ensures Within(text, rest) && call.open < call.close < |text|
    ensures Render(text, factory, cursor, [call] + rest) ==
      Slice(text, cursor, call.open + 1) + Wrapped(factory, Arguments(text, call)) + Render(text, factory, call.close, rest)
  {
    var calls := [call] + rest;
    assert calls[0] == call && calls[1..] == rest;
    assert forall i :: 0 <= i < |rest| ==> rest[i] == calls[i + 1];
    hide Wrapped, Slice, Arguments;
  }
}
