/**
 Undoing the constructor rewriter (nodes/remediation.py): what a pass computes is the input with one
 factory call put around the arguments of a closed call at a time, exactly when no call it rewrites
 lies inside another.
 */
module RewriteErasure {
  import opened Collections
  import opened JavaRewrite
  import opened RewriteLaws

  // A closed call, of either spelling of the class, opens at o.
  predicate Constructs(text: string, cls: string, other: string, o: nat) {
    Matched(text, cls, o) || Matched(text, other, o)
  }

  // The text with the arguments between the two positions replaced by the factory call on them,
  // stripped at both ends; every other character stays.
  function WrappedAt(text: string, factory: string, open: nat, close: nat): string
    requires open < close <= |text|
  {
    text[..open + 1] + Wrapped(factory, text[open + 1..close]) + text[close..]
  }

  // The second text is the first with the arguments of the closed call at o wrapped.
  predicate WrapsCall(plain: string, wrapped: string, cls: string, other: string, factory: string, o: nat) {
    && Constructs(plain, cls, other, o)
    && o < Match(plain, o).value
    && wrapped == WrappedAt(plain, factory, o, Match(plain, o).value)
  }

  ghost predicate WrapsOne(plain: string, wrapped: string, cls: string, other: string, factory: string) {
    exists o: nat :: WrapsCall(plain, wrapped, cls, other, factory, o)
  }

  // Erasing n factory calls, each the whole argument list of a closed call, turns the second text
  // into the first, up to blanks at the ends of those argument lists.
  ghost predicate Erases(plain: string, wrapped: string, cls: string, other: string, factory: string, n: nat)
    decreases n
  {
    if n == 0 then plain == wrapped
    else exists mid :: WrapsOne(plain, mid, cls, other, factory) && Erases(mid, wrapped, cls, other, factory, n - 1)
  }

  lemma ErasesFirst(a: string, c: string, cls: string, other: string, factory: string, n: nat) returns (b: string)
    requires n > 0 && Erases(a, c, cls, other, factory, n)
    ensures WrapsOne(a, b, cls, other, factory) && Erases(b, c, cls, other, factory, n - 1)
  {
    hide WrapsOne;
    b :| WrapsOne(a, b, cls, other, factory) && Erases(b, c, cls, other, factory, n - 1);
  }

  lemma ErasesCons(a: string, b: string, c: string, cls: string, other: string, factory: string, n: nat)
    requires WrapsOne(a, b, cls, other, factory) && Erases(b, c, cls, other, factory, n)
    ensures Erases(a, c, cls, other, factory, n + 1)
  {
    hide WrapsOne;
  }

  lemma ErasesNone(a: string, b: string, cls: string, other: string, factory: string)
    ensures Erases(a, b, cls, other, factory, 0) <==> a == b
  {
    hide WrapsOne;
  }

  lemma {:induction false} ErasesCompose(
    a: string, b: string, c: string, cls: string, other: string, factory: string, m: nat, n: nat)
    requires Erases(a, b, cls, other, factory, m) && Erases(b, c, cls, other, factory, n)
    ensures Erases(a, c, cls, other, factory, m + n)
    decreases m
  {
    hide *;
    if m == 0 {
      ErasesNone(a, b, cls, other, factory);
    } else {
      var mid := ErasesFirst(a, b, cls, other, factory, m);
      ErasesCompose(mid, b, c, cls, other, factory, m - 1, n);
      ErasesCons(a, mid, c, cls, other, factory, m - 1 + n);
    }
  }

  lemma ErasesMore(a: string, b: string, c: string, cls: string, other: string, factory: string, m: nat)
    requires Erases(a, b, cls, other, factory, m) && WrapsOne(b, c, cls, other, factory)
    ensures Erases(a, c, cls, other, factory, m + 1)
  {
    hide *;
    ErasesNone(c, c, cls, other, factory);
    ErasesCons(b, c, c, cls, other, factory, 0);
    ErasesCompose(a, b, c, cls, other, factory, m, 1);
  }

  // One spelling more to look for, in either place.
  lemma {:induction false} ErasesEither(a: string, b: string, cls: string, other: string, factory: string, n: nat)
    requires Erases(a, b, cls, cls, factory, n)
    ensures Erases(a, b, cls, other, factory, n) && Erases(a, b, other, cls, factory, n)
    decreases n
  {
    hide *;
    if n == 0 {
      ErasesNone(a, b, cls, cls, factory);
      ErasesNone(a, b, cls, other, factory);
      ErasesNone(a, b, other, cls, factory);
    } else {
      var mid := ErasesFirst(a, b, cls, cls, factory, n);
      ErasesEither(mid, b, cls, other, factory, n - 1);
      WrapsEither(a, mid, cls, other, factory);
      ErasesCons(a, mid, b, cls, other, factory, n - 1);
      ErasesCons(a, mid, b, other, cls, factory, n - 1);
    }
  }

  lemma WrapsEither(a: string, b: string, cls: string, other: string, factory: string)
    requires WrapsOne(a, b, cls, cls, factory)
    ensures WrapsOne(a, b, cls, other, factory) && WrapsOne(a, b, other, cls, factory)
  {
    var o: nat :| WrapsCall(a, b, cls, cls, factory, o);
    assert WrapsCall(a, b, cls, other, factory, o) && WrapsCall(a, b, other, cls, factory, o);
  }

  /* ---------- Erasing keeps the balance ---------- */

  lemma WrappedAtBalance(text: string, factory: string, open: nat, close: nat)
    requires open < close <= |text|
    ensures Balance(WrappedAt(text, factory, open, close)) == Balance(text) + Balance(factory)
  {
    var head, arguments, tail := text[..open + 1], text[open + 1..close], text[close..];
    assert text == head + arguments + tail;
    hide Wrapped, Balance;
    BalanceConcat(head + arguments, tail);
    BalanceConcat(head, arguments);
    BalanceConcat(head + Wrapped(factory, arguments), tail);
    BalanceConcat(head, Wrapped(factory, arguments));
    WrappedBalance(factory, arguments);
  }

  lemma {:induction false} ErasesBalance(a: string, b: string, cls: string, other: string, factory: string, n: nat)
    requires Erases(a, b, cls, other, factory, n) && Balance(factory) == 0
    ensures Balance(a) == Balance(b)
    decreases n
  {
    hide *;
    if n == 0 {
      ErasesNone(a, b, cls, other, factory);
    } else {
      var mid := ErasesFirst(a, b, cls, other, factory, n);
      WrapsBalance(a, mid, cls, other, factory);
      ErasesBalance(mid, b, cls, other, factory, n - 1);
    }
  }

  lemma WrapsBalance(a: string, b: string, cls: string, other: string, factory: string)
    requires WrapsOne(a, b, cls, other, factory) && Balance(factory) == 0
    ensures Balance(a) == Balance(b)
  {
    var o: nat :| WrapsCall(a, b, cls, other, factory, o);
    hide Balance, WrappedAt;
    WrappedAtBalance(a, factory, o, Match(a, o).value);
  }

  /* ---------- A pass wraps one call at a time, the last one first ---------- */

  // The text with the calls from the i-th on rewritten.
  function Partly(text: string, factory: string, calls: seq<Call>, i: nat): string
    requires i <= |calls| && Within(text, calls)
  {
    text[..CursorBefore(calls, i)] + Render(text, factory, CursorBefore(calls, i), calls[i..])
  }

  lemma PartlyEnds(text: string, factory: string, calls: seq<Call>)
    requires Within(text, calls)
    ensures Partly(text, factory, calls, 0) == Render(text, factory, 0, calls)
    ensures Partly(text, factory, calls, |calls|) == text
  {
    assert calls[0..] == calls && calls[|calls|..] == [];
    assert text[..0] == [];
    hide Render;
    RenderNone(text, factory, CursorBefore(calls, |calls|));
  }

  lemma RenderNone(text: string, factory: string, cursor: nat)
    requires cursor <= |text|
    ensures Render(text, factory, cursor, []) == text[cursor..]
  {
  }

  // What follows a rewritten call still starts with its closing parenthesis.
  lemma RestStarts(text: string, factory: string, calls: seq<Call>, i: nat)
    requires i < |calls| && Ordered(text, calls) && Within(text, calls) && FollowsFrom(calls, 0)
    ensures text[calls[i].close] == ')'
    ensures var rest := Render(text, factory, calls[i].close, calls[i + 1..]); rest != [] && rest[0] == ')'
  {
    assert Closed(text, calls[i]);
    var close := calls[i].close;
    if i + 1 < |calls| {
      RenderAt(text, factory, calls, i + 1);
      assert CursorBefore(calls, i + 1) <= calls[i + 1].open;
      assert Slice(text, close, calls[i + 1].open + 1)[0] == text[close];
    } else {
      assert calls[i + 1..] == [];
      RenderNone(text, factory, close);
    }
    hide Render, Wrapped, Balance;
  }

  lemma PartlyAfter(text: string, factory: string, calls: seq<Call>, i: nat)
    requires i < |calls| && Within(text, calls)
    ensures Partly(text, factory, calls, i + 1)
      == text[..calls[i].close] + Render(text, factory, calls[i].close, calls[i + 1..])
  {
    hide Render, Within;
  }

  lemma PartlyStep(text: string, factory: string, calls: seq<Call>, i: nat)
    requires i < |calls| && Within(text, calls) && CursorBefore(calls, i) <= calls[i].open
    ensures Partly(text, factory, calls, i)
      == text[..calls[i].open + 1] + Wrapped(factory, Arguments(text, calls[i]))
         + Render(text, factory, calls[i].close, calls[i + 1..])
  {
    hide *;
    var call, cursor := calls[i], CursorBefore(calls, i);
    RestWithin(text, calls, i);
    var wrapped, rest := Wrapped(factory, Arguments(text, call)), Render(text, factory, call.close, calls[i + 1..]);
    RenderAt(text, factory, calls, i);
    PartlyIs(text, factory, calls, i, Slice(text, cursor, call.open + 1) + wrapped + rest);
    JoinHead(text, cursor, call.open + 1, wrapped, rest);
  }

  lemma RestWithin(text: string, calls: seq<Call>, i: nat)
    requires i < |calls| && Within(text, calls)
    ensures calls[i].open < calls[i].close < |text| && Within(text, calls[i + 1..]) && CursorBefore(calls, i) <= |text|
  {
  }

  lemma PartlyIs(text: string, factory: string, calls: seq<Call>, i: nat, rendered: string)
    requires i <= |calls| && Within(text, calls)
    requires Render(text, factory, CursorBefore(calls, i), calls[i..]) == rendered
    ensures CursorBefore(calls, i) <= |text| && Partly(text, factory, calls, i) == text[..CursorBefore(calls, i)] + rendered
  {
    hide Render;
  }

  lemma JoinHead(text: string, cursor: nat, end: nat, a: string, b: string)
    requires cursor <= end <= |text|
    ensures text[..cursor] + (Slice(text, cursor, end) + a + b) == text[..end] + a + b
  {
    assert text[..cursor] + Slice(text, cursor, end) == text[..end];
  }

  // A text that agrees up to the closing parenthesis has the same call there.
  lemma CallKept(text: string, cls: string, open: nat, close: nat, rest: string)
    requires open < close < |text| && Matched(text, cls, open) && Match(text, open) == Some(close)
    requires rest != [] && rest[0] == text[close]
    ensures Matched(text[..close] + rest, cls, open) && Match(text[..close] + rest, open) == Some(close)
  {
    var upTo := text[..close + 1];
    assert text == upTo + text[close + 1..];
    assert text[..close] + rest == upTo + rest[1..];
    CallInPrefix(upTo, text[close + 1..], cls, open);
    CallInPrefix(upTo, rest[1..], cls, open);
    MatchPrefix(upTo, text[close + 1..], rest[1..], open);
    hide Match, IsCall;
  }

  lemma WrappedInPlace(text: string, cls: string, factory: string, open: nat, close: nat, rest: string)
    requires open < close < |text| && Matched(text, cls, open) && Match(text, open) == Some(close)
    requires rest != [] && rest[0] == text[close]
    ensures WrapsCall(
      text[..close] + rest, text[..open + 1] + Wrapped(factory, text[open + 1..close]) + rest, cls, cls, factory, open)
    ensures Match(text[..close] + rest, open) == Some(close)
  {
    var plain := text[..close] + rest;
    CallKept(text, cls, open, close, rest);
    assert plain[..open + 1] == text[..open + 1] && plain[open + 1..close] == text[open + 1..close] && plain[close..] == rest;
    hide Match, Matched, Wrapped;
  }

  // The calls are closed constructor calls.
  predicate AllMatched(text: string, cls: string, calls: seq<Call>) {
    forall i :: 0 <= i < |calls| ==> Matched(text, cls, calls[i].open)
  }

  lemma ListedCall(text: string, cls: string, calls: seq<Call>, i: nat)
    requires i < |calls| && Ordered(text, calls) && AllMatched(text, cls, calls)
    requires FollowsFrom(calls, 0)
    ensures CursorBefore(calls, i) <= calls[i].open < calls[i].close < |text| && Within(text, calls[i + 1..])
    ensures Arguments(text, calls[i]) == text[calls[i].open + 1..calls[i].close]
    ensures Matched(text, cls, calls[i].open) && Match(text, calls[i].open) == Some(calls[i].close)
  {
    assert Closed(text, calls[i]);
    hide Match, Matched;
  }

  // One call more is rewritten by wrapping its argument list in place.
  lemma PartlyWraps(text: string, cls: string, factory: string, calls: seq<Call>, i: nat)
    requires i < |calls| && Ordered(text, calls) && Within(text, calls) && FollowsFrom(calls, 0) && AllMatched(text, cls, calls)
    ensures WrapsCall(Partly(text, factory, calls, i + 1), Partly(text, factory, calls, i), cls, cls, factory, calls[i].open)
    ensures Match(Partly(text, factory, calls, i + 1), calls[i].open) == Some(calls[i].close)
  {
    hide *;
    ListedCall(text, cls, calls, i);
    PartlyAfter(text, factory, calls, i);
    PartlyStep(text, factory, calls, i);
    RestStarts(text, factory, calls, i);
    var call := calls[i];
    WrappedInPlace(text, cls, factory, call.open, call.close, Render(text, factory, call.close, calls[i + 1..]));
  }

  lemma {:induction false} PartlyErases(text: string, cls: string, factory: string, calls: seq<Call>, i: nat)
    requires i <= |calls| && Ordered(text, calls) && Within(text, calls) && FollowsFrom(calls, 0) && AllMatched(text, cls, calls)
    ensures Erases(text, Partly(text, factory, calls, i), cls, cls, factory, |calls| - i)
    decreases |calls| - i
  {
    hide *;
    if i == |calls| {
      PartlyEnds(text, factory, calls);
      ErasesNone(text, text, cls, cls, factory);
    } else {
      var more, less := Partly(text, factory, calls, i), Partly(text, factory, calls, i + 1);
      PartlyErases(text, cls, factory, calls, i + 1);
      PartlyWraps(text, cls, factory, calls, i);
      WrapsAt(less, more, cls, cls, factory, calls[i].open);
      ErasesMore(text, less, more, cls, cls, factory, |calls| - i - 1);
    }
  }

  lemma WrapsAt(plain: string, wrapped: string, cls: string, other: string, factory: string, o: nat)
    requires WrapsCall(plain, wrapped, cls, other, factory, o)
    ensures WrapsOne(plain, wrapped, cls, other, factory)
  {
    hide WrapsCall;
  }

  /** Erasing one factory call per rewritten call from the result of a pass gives back the input, up to
      blanks at the ends of those calls' arguments, exactly when the rewritten calls do not nest. */
  lemma ErasureGivesBack(text: string, cls: string, factory: string)
    requires Balance(factory) == 0
    ensures var sites := SitesFrom(text, cls, factory, 0);
      Erases(text, RewritePass(text, cls, factory), cls, cls, factory, |sites|) <==> Sequential(sites)
  {
    hide Erases, SitesFrom, Render, Partly, Ordered, Sequential;
    var sites := SitesFrom(text, cls, factory, 0);
    PassKeepsBalanceExactly(text, cls, factory);
    if Sequential(sites) {
      SitesAreOrdered(text, cls, factory, 0);
      FollowsIsSequential(text, sites);
      assert AllMatched(text, cls, sites);
      PartlyErases(text, cls, factory, sites, 0);
      PartlyEnds(text, factory, sites);
    }
    if Erases(text, RewritePass(text, cls, factory), cls, cls, factory, |sites|) {
      ErasesBalance(text, RewritePass(text, cls, factory), cls, cls, factory, |sites|);
    }
  }
}
