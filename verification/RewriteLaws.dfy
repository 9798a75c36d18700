/**
 What one pass of the constructor rewriter keeps of the parenthesis balance (nodes/remediation.py):
 all of it exactly when no rewritten call lies inside another.
 */
module RewriteLaws {
  import opened Collections
  import opened Text
  import opened JavaRewrite

  /* ---------- Balance ---------- */

  // No rewritten call opens before the previous one was closed.
  predicate Sequential(calls: seq<Call>) {
    forall i, j :: 0 <= i < j < |calls| ==> calls[i].close < calls[j].open
  }

  // The call with the parenthesis that closes it.
  predicate Closed(text: string, call: Call) {
    call.open < call.close < |text| && text[call.open] == '(' && Match(text, call.open) == Some(call.close)
  }

  // Closed calls in text order.
  predicate Ordered(text: string, calls: seq<Call>) {
    && (forall i :: 0 <= i < |calls| ==> Closed(text, calls[i]))
    && forall i, j :: 0 <= i < j < |calls| ==> calls[i].open < calls[j].open
  }

  lemma {:induction false} SitesAreOrdered(text: string, cls: string, factory: string, k: nat)
    ensures Ordered(text, SitesFrom(text, cls, factory, k))
    decreases |text| - k
  {
    if k < |text| {
      SitesAreOrdered(text, cls, factory, k + 1);
      SitesStep(text, cls, factory, k);
      if Site(text, cls, factory, k) {
        OrderedCons(text, Call(k, Match(text, k).value), SitesFrom(text, cls, factory, k + 1));
      }
      hide *;
    }
  }

  lemma OrderedCons(text: string, call: Call, rest: seq<Call>)
    requires Closed(text, call) && Ordered(text, rest)
    requires forall i :: 0 <= i < |rest| ==> call.open < rest[i].open
    ensures Ordered(text, [call] + rest)
  {
    hide Closed;
  }

  lemma {:induction false} TrimmedBalance(s: string)
    ensures Balance(StripLeft(s)) == Balance(s) && Balance(StripRight(s)) == Balance(s)
    decreases |s|
  {
    if s != [] && IsSpace(s[0]) {
      TrimmedBalance(s[1..]);
      BalanceSplit(s, 0, 1, |s|);
      BalanceNext(s, 0, 0);
      assert s[0..0] == [] && s[0..|s|] == s && s[1..|s|] == s[1..];
    }
    if s != [] && IsSpace(Last(s)) {
      TrimmedBalance(s[..|s| - 1]);
    }
  }

  lemma WrappedBalance(factory: string, arguments: string)
    ensures Balance(Wrapped(factory, arguments)) == Balance(factory) + Balance(arguments)
  {
    TrimmedBalance(arguments);
    TrimmedBalance(StripLeft(arguments));
    var stripped := Strip(arguments);
    BalanceConcat(factory + "(" + stripped, ")");
    BalanceConcat(factory + "(", stripped);
    BalanceConcat(factory, "(");
    BalanceOfParentheses();
  }

  lemma BalanceOfParentheses()
    ensures Balance("(") == 1 && Balance(")") == -1
  {
    assert Balance([]) == 0;
    assert "("[..0] == [] && ")"[..0] == [];
  }

  // Depth before position j.
  function DepthAt(text: string, j: nat): int
    requires j <= |text|
  {
    Balance(text[..j])
  }

  lemma DepthBetween(text: string, i: nat, j: nat)
    requires i <= j <= |text|
    ensures Balance(text[i..j]) == DepthAt(text, j) - DepthAt(text, i)
  {
    BalanceSplit(text, 0, i, j);
    assert text[0..j] == text[..j] && text[0..i] == text[..i];
  }

  lemma SpanDepths(text: string, call: Call)
    requires Closed(text, call)
    ensures DepthAt(text, call.close) == DepthAt(text, call.open + 1) == DepthAt(text, call.open) + 1
    ensures Balance(Arguments(text, call)) == 0
    ensures forall j :: call.open < j <= call.close ==> DepthAt(text, j) > DepthAt(text, call.open)
  {
    SpanDepth(text, call.open, call.close);
    DepthBetween(text, call.open + 1, call.close);
    DepthBetween(text, call.open, call.open + 1);
    BalanceNext(text, call.open, call.open);
    assert text[call.open..call.open] == [];
    forall j | call.open < j <= call.close
      ensures DepthAt(text, j) > DepthAt(text, call.open)
    {
      DepthBetween(text, call.open, j);
    }
  }

  // A call inside another opens deeper than the other closes.
  lemma NestedIsDeeper(text: string, outer: Call, inner: Call)
    requires Closed(text, outer) && Closed(text, inner)
    requires outer.open < inner.open < outer.close
    ensures DepthAt(text, inner.open + 1) > DepthAt(text, outer.close)
  {
    SpanDepths(text, outer);
    SpanDepths(text, inner);
  }

  function CursorBefore(calls: seq<Call>, i: nat): nat
    requires i <= |calls|
  {
    if i == 0 then 0 else calls[i - 1].close
  }

  // From the i-th call on, every call starts past the cursor.
  predicate FollowsFrom(calls: seq<Call>, i: nat)
    requires i <= |calls|
  {
    forall j {:trigger CursorBefore(calls, j)} :: i <= j < |calls| ==> CursorBefore(calls, j) <= calls[j].open
  }

  lemma RenderAt(text: string, factory: string, calls: seq<Call>, i: nat)
    requires i < |calls| && Within(text, calls)
    ensures var cursor := CursorBefore(calls, i); var head := Slice(text, cursor, calls[i].open + 1);
      Render(text, factory, cursor, calls[i..])
      == head + Wrapped(factory, Arguments(text, calls[i])) + Render(text, factory, calls[i].close, calls[i + 1..])
  {
    hide Wrapped, Slice, Arguments;
    assert calls[i..][0] == calls[i] && calls[i..][1..] == calls[i + 1..];
  }

  // How much less depth the rewritten rest has than the rest of the text.
  function Lost(text: string, factory: string, calls: seq<Call>, i: nat): int
    requires i <= |calls| && Within(text, calls)
  {
    DepthAt(text, |text|) - DepthAt(text, CursorBefore(calls, i)) - Balance(Render(text, factory, CursorBefore(calls, i), calls[i..]))
  }

  lemma {:induction false} RenderBalance(text: string, factory: string, calls: seq<Call>, i: nat)
    requires i <= |calls| && Ordered(text, calls) && Within(text, calls) && Balance(factory) == 0
    ensures Lost(text, factory, calls, i) >= 0
    ensures Lost(text, factory, calls, i) == 0 <==> FollowsFrom(calls, i)
    decreases |calls| - i
  {
    hide *;
    if i == |calls| {
      NothingLost(text, factory, calls);
    } else {
      RenderBalance(text, factory, calls, i + 1);
      FollowsStep(calls, i);
      CallBalance(text, factory, calls, i);
    }
  }

  lemma NothingLost(text: string, factory: string, calls: seq<Call>)
    requires Within(text, calls)
    ensures Lost(text, factory, calls, |calls|) == 0 && FollowsFrom(calls, |calls|)
  {
    var cursor := CursorBefore(calls, |calls|);
    DepthBetween(text, cursor, |text|);
    assert text[cursor..] == text[cursor..|text|];
  }

  lemma CallBalance(text: string, factory: string, calls: seq<Call>, i: nat)
    requires i < |calls| && Ordered(text, calls) && Within(text, calls) && Balance(factory) == 0
    ensures Lost(text, factory, calls, i) >= Lost(text, factory, calls, i + 1)
    ensures Lost(text, factory, calls, i) == Lost(text, factory, calls, i + 1) <==> CursorBefore(calls, i) <= calls[i].open
  {
    HeadBalance(text, calls, i);
    assert Closed(text, calls[i]);
    SpanDepths(text, calls[i]);
    RenderedBalance(text, factory, calls, i);
    hide Render, Wrapped, Slice, Arguments, Ordered, Within, Match, DepthAt, Balance;
  }

  lemma RenderedBalance(text: string, factory: string, calls: seq<Call>, i: nat)
    requires i < |calls| && Within(text, calls)
    ensures CursorBefore(calls, i) <= |text|
    ensures Balance(Render(text, factory, CursorBefore(calls, i), calls[i..])) ==
      Balance(Slice(text, CursorBefore(calls, i), calls[i].open + 1)) + Balance(factory) + Balance(Arguments(text, calls[i]))
      + Balance(Render(text, factory, calls[i].close, calls[i + 1..]))
  {
    WrappedBalance(factory, Arguments(text, calls[i]));
    RenderAt(text, factory, calls, i);
    var head, wrapped, tail :=
      Slice(text, CursorBefore(calls, i), calls[i].open + 1), Wrapped(factory, Arguments(text, calls[i])),
      Render(text, factory, calls[i].close, calls[i + 1..]);
    BalanceConcat(head + wrapped, tail);
    BalanceConcat(head, wrapped);
    hide *;
  }

  lemma HeadBalance(text: string, calls: seq<Call>, i: nat)
    requires i < |calls| && Ordered(text, calls)
    ensures CursorBefore(calls, i) <= |text| && calls[i].close <= |text|
    ensures var cursor := CursorBefore(calls, i);
      var lost := DepthAt(text, calls[i].close) - DepthAt(text, cursor) - Balance(Slice(text, cursor, calls[i].open + 1));
      lost >= 0 && (lost == 0 <==> cursor <= calls[i].open)
  {
    var cursor, call := CursorBefore(calls, i), calls[i];
    assert Closed(text, call) && (i > 0 ==> Closed(text, calls[i - 1]) && calls[i - 1].open < call.open);
    assert call.open < call.close < |text| && (i > 0 ==> calls[i - 1].close < |text|);
    assert Balance([]) == 0;
    hide Closed, Ordered, DepthAt, Balance;
    SpanDepths(text, call);
    if cursor <= call.open {
      DepthBetween(text, cursor, call.open + 1);
    } else {
      NestedIsDeeper(text, calls[i - 1], call);
    }
  }

  lemma FollowsStep(calls: seq<Call>, i: nat)
    requires i < |calls|
    ensures FollowsFrom(calls, i) <==> CursorBefore(calls, i) <= calls[i].open && FollowsFrom(calls, i + 1)
  {
  }

  lemma {:induction false} FollowsIsSequential(text: string, calls: seq<Call>)
    requires Ordered(text, calls)
    ensures FollowsFrom(calls, 0) <==> Sequential(calls)
  {
    hide Match;
    if FollowsFrom(calls, 0) {
      forall i, j | 0 <= i < j < |calls|
        ensures calls[i].close < calls[j].open
      {
        assert Closed(text, calls[i]) && Closed(text, calls[j]);
        assert CursorBefore(calls, i + 1) <= calls[i + 1].open <= calls[j].open;
        assert text[calls[i].close] == ')';
      }
    }
  }

  /** The pass keeps the text's parenthesis balance exactly when no call it rewrites lies inside
      another one; otherwise the balance always drops. */
  lemma PassKeepsBalanceExactly(text: string, cls: string, factory: string)
    requires Balance(factory) == 0
    ensures var sites := SitesFrom(text, cls, factory, 0); var balance := Balance(RewritePass(text, cls, factory));
      balance <= Balance(text) && (balance == Balance(text) <==> Sequential(sites))
  {
    var sites := SitesFrom(text, cls, factory, 0);
    SitesAreOrdered(text, cls, factory, 0);
    RenderBalance(text, factory, sites, 0);
    FollowsIsSequential(text, sites);
    assert sites[0..] == sites && text[..|text|] == text && text[..0] == [];
    assert Balance([]) == 0;
    hide Render, SitesFrom;
  }
}
