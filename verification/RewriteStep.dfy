/**
 One step of the constructor rewriter: the whole argument list of one closed call is wrapped
 (nodes/remediation.py). Every other call stays where it is, closed where it was, and as wrapped as it
 was: all of that is decided by the text around and inside the argument list.
 */
module RewriteStep {
  import opened Collections
  import opened Text
  import opened JavaRewrite
  import opened RewriteLaws

  // A site is where its call is closed and its arguments are unwrapped.
  lemma SiteIs(text: string, cls: string, factory: string, o: nat, close: nat)
    requires o < |text| && Match(text, o) == Some(close)
    ensures IsCall(text, cls, o) ==> o < close < |text|
    ensures Site(text, cls, factory, o) <==> IsCall(text, cls, o) && !(factory + "(" <= Strip(text[o + 1..close]))
  {
  }

  /* ---------- Where a depth is closed ---------- */

  // At k the depth, d on entry, comes down to zero.
  predicate Closes(s: string, d: int, k: nat) {
    k < |s| && s[k] == ')' && d + Balance(s[..k + 1]) == 0
  }

  function ScanFrom(s: string, d: int, k: nat): (r: Option<nat>)
    requires k <= |s|
    ensures r.Some? ==> r.value >= k && Closes(s, d, r.value) && forall j :: k <= j < r.value ==> !Closes(s, d, j)
    ensures r.None? ==> forall j :: k <= j ==> !Closes(s, d, j)
    decreases |s| - k
  {
    if k == |s| then None else if Closes(s, d, k) then Some(k) else ScanFrom(s, d, k + 1)
  }

  // The first such place.
  function Scan(s: string, d: int): (r: Option<nat>)
    ensures r.Some? ==> Closes(s, d, r.value) && forall j :: 0 <= j < r.value ==> !Closes(s, d, j)
    ensures r.None? ==> forall j: nat :: !Closes(s, d, j)
  {
    ScanFrom(s, d, 0)
  }

  lemma ScanIs(s: string, d: int, k: nat)
    requires Closes(s, d, k) && forall j :: 0 <= j < k ==> !Closes(s, d, j)
    ensures Scan(s, d) == Some(k)
  {
    var r := Scan(s, d);
    assert r.Some?;
    hide Closes;
    assert r.value <= k && k <= r.value;
  }

  lemma ClosesLeft(a: string, b: string, d: int, k: nat)
    requires k < |a|
    ensures Closes(a + b, d, k) <==> Closes(a, d, k)
  {
    assert (a + b)[..k + 1] == a[..k + 1];
    hide Balance;
  }

  lemma ClosesRight(a: string, b: string, d: int, k: nat)
    ensures Closes(a + b, d, |a| + k) <==> Closes(b, d + Balance(a), k)
  {
    hide *;
    ClosesIs(a + b, d, |a| + k);
    ClosesIs(b, d + Balance(a), k);
    if k < |b| {
      RightPrefix(a, b, k);
      BalanceConcat(a, b[..k + 1]);
    }
  }

  lemma ClosesIs(s: string, d: int, k: nat)
    ensures Closes(s, d, k) <==> k < |s| && s[k] == ')' && d + Balance(s[..k + 1]) == 0
  {
  }

  lemma RightPrefix(a: string, b: string, k: nat)
    requires k < |b|
    ensures (a + b)[..|a| + k + 1] == a + b[..k + 1] && (a + b)[|a| + k] == b[k]
  {
  }

  lemma ScanConcat(a: string, b: string, d: int)
    ensures Scan(a + b, d) ==
      if Scan(a, d).Some? then Scan(a, d)
      else match Scan(b, d + Balance(a)) case None => None case Some(k) => Some(|a| + k)
  {
    ShortCloses(a, d);
    hide *;
    var e := d + Balance(a);
    if Scan(a, d).Some? {
      var k := Scan(a, d).value;
      forall j: nat | j <= k
        ensures Closes(a + b, d, j) <==> Closes(a, d, j)
      {
        ClosesLeft(a, b, d, j);
      }
      ScanIs(a + b, d, k);
    } else {
      forall j: nat | j < |a|
        ensures !Closes(a + b, d, j)
      {
        ClosesLeft(a, b, d, j);
      }
      ScanRight(a, b, d);
    }
  }

  lemma ScanRight(a: string, b: string, d: int)
    requires forall j: nat | j < |a| :: !Closes(a + b, d, j)
    ensures Scan(a + b, d) == match Scan(b, d + Balance(a)) case None => None case Some(k) => Some(|a| + k)
  {
    hide *;
    var e := d + Balance(a);
    forall j: nat | |a| <= j
      ensures Closes(a + b, d, j) <==> Closes(b, e, j - |a|)
    {
      ClosesRight(a, b, d, j - |a|);
    }
    if Scan(b, e).Some? {
      ScanIs(a + b, d, |a| + Scan(b, e).value);
    }
  }

  lemma ShortCloses(s: string, d: int)
    ensures forall k: nat :: Closes(s, d, k) ==> k < |s|
  {
  }

  lemma MatchIsScan(text: string, o: nat)
    requires o <= |text|
    ensures Match(text, o) == match Scan(text[o..], 0) case None => None case Some(k) => Some(o + k)
  {
    forall k: nat
      ensures ClosesAt(text, o, o + k) <==> Closes(text[o..], 0, k)
    {
      if o + k < |text| {
        assert text[o..o + k + 1] == text[o..][..k + 1];
      }
    }
    var one, other := Match(text, o), Scan(text[o..], 0);
    hide Closes, ClosesAt;
    if one.Some? {
      assert Closes(text[o..], 0, one.value - o);
    }
    if other.Some? {
      assert ClosesAt(text, o, o + other.value);
    }
  }

  /* ---------- Depth profiles ---------- */

  // Entered at depth d, the depth stays positive to the end of the text.
  predicate Above(s: string, d: int)
    decreases |s|
  {
    d + Balance(s) > 0 && (s != [] ==> Above(s[..|s| - 1], d))
  }

  lemma {:induction false} AboveConcat(a: string, b: string, d: int)
    ensures Above(a + b, d) <==> Above(a, d) && Above(b, d + Balance(a))
    decreases |b|
  {
    if b == [] {
      assert a + b == a;
    } else {
      var front := b[..|b| - 1];
      assert (a + b)[..|a + b| - 1] == a + front;
      AboveConcat(a, front, d);
      BalanceConcat(a, b);
      hide Balance;
    }
  }

  lemma {:induction false} AboveRaised(s: string, d: int, e: int)
    requires Above(s, d) && d <= e
    ensures Above(s, e)
    decreases |s|
  {
    if s != [] {
      AboveRaised(s[..|s| - 1], d, e);
    }
  }

  lemma {:induction false} AbovePrefix(s: string, d: int, j: nat)
    requires Above(s, d) && j <= |s|
    ensures d + Balance(s[..j]) > 0
    decreases |s|
  {
    if j == |s| {
      assert s[..j] == s;
    } else {
      AbovePrefix(s[..|s| - 1], d, j);
      assert s[..|s| - 1][..j] == s[..j];
    }
  }

  // Behind an opening parenthesis the depth stays positive as long as it is not closed.
  lemma {:induction false} AboveSpan(text: string, o: nat, j: nat)
    requires o < j <= |text| && text[o] == '('
    requires forall k :: o <= k < j ==> !ClosesAt(text, o, k)
    ensures Above(text[o + 1..j], 1)
  {
    PositiveInside(text, o, j);
    BalanceSplit(text, o, o + 1, j);
    BalanceNext(text, o, o);
    assert text[o..o] == [];
    if j > o + 1 {
      AboveSpan(text, o, j - 1);
      assert text[o + 1..j][..j - o - 2] == text[o + 1..j - 1];
    }
  }

  lemma ArgumentsAbove(text: string, o: nat, close: nat)
    requires o < |text| && text[o] == '(' && Match(text, o) == Some(close)
    ensures o < close < |text| && text[close] == ')' && Above(text[o + 1..close], 1) && Balance(text[o + 1..close]) == 0
  {
    SpanDepth(text, o, close);
    AboveSpan(text, o, close);
  }

  lemma {:induction false} AboveFlat(s: string, d: int)
    requires d > 0 && forall ch :: ch in s ==> !IsParenthesis(ch)
    ensures Above(s, d) && Balance(s) == 0
    decreases |s|
  {
    if s != [] {
      AboveFlat(s[..|s| - 1], d);
      assert Last(s) in s;
    }
  }

  lemma AboveThree(a: string, b: string, c: string, d: int)
    ensures Above(a + b + c, d) <==> Above(a, d) && Above(b, d + Balance(a)) && Above(c, d + Balance(a) + Balance(b))
  {
    AboveConcat(a + b, c, d);
    AboveConcat(a, b, d);
    BalanceConcat(a, b);
    hide *;
  }

  // Trimming takes blanks off one end.
  lemma {:induction false} StripLeftSplit(s: string) returns (left: string)
    ensures Blank(left) && s == left + StripLeft(s)
    decreases |s|
  {
    left := [];
    if s != [] && IsSpace(s[0]) {
      left := StripLeftSplit(s[1..]);
      left := [s[0]] + left;
      assert s == [s[0]] + s[1..];
    }
  }

  lemma {:induction false} StripRightSplit(s: string) returns (right: string)
    ensures Blank(right) && s == StripRight(s) + right
    decreases |s|
  {
    right := [];
    if s != [] && IsSpace(Last(s)) {
      right := StripRightSplit(s[..|s| - 1]);
      right := right + [Last(s)];
      assert s == s[..|s| - 1] + [Last(s)];
    }
  }

  lemma StripSplit(s: string) returns (left: string, right: string)
    ensures Blank(left) && Blank(right) && s == left + Strip(s) + right
  {
    left := StripLeftSplit(s);
    right := StripRightSplit(StripLeft(s));
  }

  lemma BlankHasNoParenthesis(s: string)
    requires Blank(s)
    ensures forall ch :: ch in s ==> !IsParenthesis(ch)
  {
  }

  lemma StrippedAbove(s: string)
    requires Above(s, 1)
    ensures Above(Strip(s), 1) && Balance(Strip(s)) == Balance(s)
  {
    var left, right := StripSplit(s);
    BlankHasNoParenthesis(left);
    AboveFlat(left, 1);
    AboveThree(left, Strip(s), right, 1);
    TrimmedBalance(s);
    TrimmedBalance(StripLeft(s));
    hide Above, Balance, StripLeft, StripRight;
  }

  lemma AboveOpen(inner: string)
    requires Above(inner, 1) && Balance(inner) == 0
    ensures Above("(" + inner + ")", 1)
  {
    BalanceOfParentheses();
    AboveRaised(inner, 1, 2);
    assert "("[..0] == [] && ")"[..0] == [] && Balance([]) == 0;
    assert Above("(", 1) && Above(")", 2);
    AboveConcat("(" + inner, ")", 1);
    AboveConcat("(", inner, 1);
    BalanceConcat("(", inner);
    hide *;
  }

  lemma NameIsNoCall(factory: string, rest: string, cls: string)
    requires IsName(factory) && IsName(cls)
    ensures !IsCall(factory + "(" + rest, cls, |factory|)
  {
    var s := factory + "(" + rest;
    forall k | 0 <= k <= |factory|
      ensures !Head(s[k..|factory|], cls)
    {
      var head := s[k..|factory|];
      assert forall j :: 0 <= j < |head| ==> head[j] == factory[k + j] && factory[k + j] in factory;
      if Head(head, cls) {
        HeadHasNoParenthesis(head, cls);
        assert false;
      }
    }
  }

  // A call of a part is a call of the whole.
  lemma CallExtends(a: string, b: string, c: string, cls: string, i: nat)
    requires IsCall(b, cls, i)
    ensures IsCall(a + b + c, cls, |a| + i)
  {
    var k :| 0 <= k <= i && Head(b[k..i], cls);
    assert (a + b + c)[|a| + k..|a| + i] == b[k..i];
  }

  lemma ShiftedSlice(a: string, b: string, i: nat, j: nat)
    requires i <= j <= |b|
    ensures (a + b)[|a| + i..|a| + j] == b[i..j]
  {
  }

  lemma SiteCalls(text: string, cls: string, factory: string, i: nat)
    requires Site(text, cls, factory, i)
    ensures i < |text| && IsCall(text, cls, i) && Match(text, i).Some?
  {
  }

  // Balanced text that never dips closes no depth.
  lemma ScanAbove(s: string, d: int)
    requires Above(s, 1) && d >= 1
    ensures Scan(s, d).None?
  {
    if Scan(s, d).Some? {
      AbovePrefix(s, 1, Scan(s, d).value + 1);
    }
    hide Above, Balance;
  }

  lemma OpenStays(s: string)
    requires s != [] && s[0] == '(' && Scan(s, 0).None?
    ensures Balance(s) >= 1
  {
    MatchIsScan(s, 0);
    assert s[0..] == s && s[0..|s|] == s;
    PositiveInside(s, 0, |s|);
    hide Balance, Scan;
  }

  // In balanced text that never dips every parenthesis is closed.
  lemma InnerCloses(s: string, i: nat)
    requires Above(s, 1) && Balance(s) == 0 && i < |s| && s[i] == '('
    ensures Scan(s[i..], 0).Some?
  {
    if Scan(s[i..], 0).None? {
      OpenStays(s[i..]);
      AbovePrefix(s, 1, i);
      assert s == s[..i] + s[i..];
      BalanceConcat(s[..i], s[i..]);
    }
    hide Above, Balance;
  }

  /* ---------- A text around one argument list ---------- */

  // The text up to and including an opening parenthesis, what is put before the arguments, the
  // stripped arguments, what is put after them, and the text from the closing parenthesis on.
  datatype Cut = Cut(head: string, left: string, inner: string, right: string, tail: string)

  datatype Pos = InHead(i: nat) | InInner(i: nat) | InTail(i: nat)

  function Middle(c: Cut): string {
    c.left + c.inner + c.right
  }

  function Whole(c: Cut): string {
    c.head + Middle(c) + c.tail
  }

  predicate Core(c: Cut) {
    && c.head != [] && Last(c.head) == '(' && c.tail != [] && c.tail[0] == ')'
    && Above(c.inner, 1) && Balance(c.inner) == 0
  }

  // Blanks, or the factory call.
  predicate Sides(c: Cut, factory: string) {
    (Blank(c.left) && Blank(c.right)) || (c.left == factory + "(" && c.right == ")")
  }

  predicate Cutting(c: Cut, name: string, factory: string) {
    Core(c) && Sides(c, factory) && IsName(name) && IsName(factory)
  }

  predicate Inside(c: Cut, p: Pos) {
    match p
    case InHead(i) => i < |c.head|
    case InInner(i) => i < |c.inner|
    case InTail(i) => i < |c.tail|
  }

  function CharAt(c: Cut, p: Pos): char
    requires Inside(c, p)
  {
    match p
    case InHead(i) => c.head[i]
    case InInner(i) => c.inner[i]
    case InTail(i) => c.tail[i]
  }

  // Where the position stands in the whole text.
  function Place(c: Cut, p: Pos): nat {
    match p
    case InHead(i) => i
    case InInner(i) => |c.head| + |c.left| + i
    case InTail(i) => |c.head| + |Middle(c)| + i
  }

  // Where a parenthesis is closed, as far as the text outside the sides tells.
  function CloseIn(c: Cut, p: Pos): (r: Option<Pos>)
    requires Inside(c, p)
    ensures r.Some? ==> Inside(c, r.value)
  {
    match p
    case InHead(i) =>
      (match Scan(c.head[i..], 0)
       case Some(k) => Some(InHead(i + k))
       case None =>
         match Scan(c.tail, Balance(c.head[i..]))
         case None => None
         case Some(k) => Some(InTail(k)))
    case InInner(i) =>
      (match Scan(c.inner[i..], 0)
       case None => None
       case Some(k) => Some(InInner(i + k)))
    case InTail(i) =>
      match Scan(c.tail[i..], 0)
      case None => None
      case Some(k) => Some(InTail(i + k))
  }

  lemma MiddleBalanced(c: Cut, name: string, factory: string)
    requires Cutting(c, name, factory)
    ensures Above(Middle(c), 1) && Balance(Middle(c)) == 0
  {
    if c.left == factory + "(" && c.right == ")" {
      AboveFlat(factory, 1);
      AboveOpen(c.inner);
      AboveConcat(factory, "(" + c.inner + ")", 1);
      BalanceConcat(factory, "(" + c.inner + ")");
      BalanceOfParentheses();
      BalanceConcat("(" + c.inner, ")");
      BalanceConcat("(", c.inner);
      assert Middle(c) == factory + ("(" + c.inner + ")");
    } else {
      BlankHasNoParenthesis(c.left);
      BlankHasNoParenthesis(c.right);
      AboveFlat(c.left, 1);
      AboveFlat(c.right, 1);
      AboveThree(c.left, c.inner, c.right, 1);
      BalanceConcat(c.left + c.inner, c.right);
      BalanceConcat(c.left, c.inner);
    }
    hide Above, Balance;
  }

  // The text from a position on.
  lemma FromHead(c: Cut, i: nat)
    requires i < |c.head|
    ensures Whole(c)[i..] == c.head[i..] + Middle(c) + c.tail
  {
    hide Middle;
  }

  lemma FromInner(c: Cut, i: nat)
    requires i < |c.inner|
    ensures Place(c, InInner(i)) < |Whole(c)| && Whole(c)[Place(c, InInner(i))..] == c.inner[i..] + (c.right + c.tail)
    ensures Whole(c)[Place(c, InInner(i))] == c.inner[i]
  {
    assert Whole(c) == (c.head + c.left) + (c.inner + (c.right + c.tail));
  }

  lemma FromTail(c: Cut, i: nat)
    requires i < |c.tail|
    ensures Place(c, InTail(i)) < |Whole(c)| && Whole(c)[Place(c, InTail(i))..] == c.tail[i..]
  {
    hide Middle;
  }

  /** A parenthesis is closed at a place that depends on the sides only by its offset. */
  lemma MatchAt(c: Cut, name: string, factory: string, p: Pos)
    requires Cutting(c, name, factory) && Inside(c, p) && CharAt(c, p) == '('
    ensures Place(c, p) < |Whole(c)|
    ensures Match(Whole(c), Place(c, p)) == match CloseIn(c, p) case None => None case Some(q) => Some(Place(c, q))
  {
    match p
    case InHead(i) => MatchInHead(c, name, factory, i);
    case InInner(i) => MatchInInner(c, name, factory, i);
    case InTail(i) =>
      FromTail(c, i);
      hide Whole, Balance, Scan, Match, Core, Middle;
      MatchIsScan(Whole(c), Place(c, p));
  }

  lemma MatchInHead(c: Cut, name: string, factory: string, i: nat)
    requires Cutting(c, name, factory) && i < |c.head| && c.head[i] == '('
    ensures i < |Whole(c)|
    ensures Match(Whole(c), i) ==
      match CloseIn(c, InHead(i)) case None => None case Some(q) => Some(Place(c, q))
  {
    hide *;
    MiddleBalanced(c, name, factory);
    FromHead(c, i);
    HeadStarts(c, i);
    ScanAcross(c.head[i..], Middle(c), c.tail);
    MatchIsScan(Whole(c), i);
    CloseInHead(c, i);
  }

  lemma CloseInHead(c: Cut, i: nat)
    requires i < |c.head|
    ensures (match CloseIn(c, InHead(i)) case None => None case Some(q) => Some(Place(c, q))) ==
      match Scan(c.head[i..], 0)
      case Some(k) => Some(i + k)
      case None =>
        match Scan(c.tail, Balance(c.head[i..]))
        case None => None
        case Some(k) => Some(i + |c.head[i..]| + |Middle(c)| + k)
  {
    hide Scan, Balance, Middle;
  }

  lemma HeadStarts(c: Cut, i: nat)
    requires i < |c.head|
    ensures i < |Whole(c)| && c.head[i..] != [] && c.head[i..][0] == c.head[i] && |c.head[i..]| == |c.head| - i
  {
  }

  // Balanced text in between only moves the close.
  lemma ScanAcross(x: string, m: string, z: string)
    requires x != [] && x[0] == '(' && Above(m, 1) && Balance(m) == 0
    ensures Scan(x + m + z, 0) ==
      if Scan(x, 0).Some? then Scan(x, 0)
      else match Scan(z, Balance(x)) case None => None case Some(k) => Some(|x| + |m| + k)
  {
    hide *;
    ScanConcat(x + m, z, 0);
    ScanConcat(x, m, 0);
    BalanceConcat(x, m);
    if Scan(x, 0).None? {
      OpenStays(x);
      ScanAbove(m, Balance(x));
    }
  }

  lemma MatchInInner(c: Cut, name: string, factory: string, i: nat)
    requires Cutting(c, name, factory) && i < |c.inner| && c.inner[i] == '('
    ensures Place(c, InInner(i)) < |Whole(c)| && CloseIn(c, InInner(i)).Some?
    ensures Match(Whole(c), Place(c, InInner(i))) == Some(Place(c, CloseIn(c, InInner(i)).value))
  {
    FromInner(c, i);
    InnerCloses(c.inner, i);
    hide Whole, Middle, Balance, Scan, Match, Core, Cutting, Above;
    MatchIsScan(Whole(c), Place(c, InInner(i)));
    ScanConcat(c.inner[i..], c.right + c.tail, 0);
  }

  /* ---------- The calls of the whole text ---------- */

  predicate CallIn(c: Cut, name: string, p: Pos) {
    match p
    case InHead(i) => IsCall(c.head, name, i)
    case InInner(i) => IsCall(c.inner, name, i)
    case InTail(i) => i > 0 && IsCall(c.tail, name, i)
  }

  // A call does not start in blanks.
  lemma BlankBefore(l: string, b: string, name: string, i: nat)
    requires Blank(l) && i < |b|
    ensures IsCall(l + b, name, |l| + i) <==> IsCall(b, name, i)
  {
    if IsCall(b, name, i) {
      var k :| 0 <= k <= i && Head(b[k..i], name);
      assert (l + b)[|l| + k..|l| + i] == b[k..i];
    }
    if IsCall(l + b, name, |l| + i) {
      var k :| 0 <= k <= |l| + i && Head((l + b)[k..|l| + i], name);
      var h := (l + b)[k..|l| + i];
      assert k < |l| ==> h[0] == l[k];
      HeadStartsWithN(h, name);
      assert (l + b)[k..|l| + i] == b[k - |l|..i];
    }
    hide Head;
  }

  lemma HeadStartsWithN(s: string, name: string)
    requires Head(s, name)
    ensures s != [] && s[0] == 'n'
  {
    var j :| 3 < j <= |s| - |name| && HeadSplit(s, name, j);
    assert s[..3][0] == 'n';
  }

  /** Whether a parenthesis opens a call does not depend on the sides. */
  lemma CallAt(c: Cut, name: string, factory: string, p: Pos)
    requires Cutting(c, name, factory) && Inside(c, p)
    ensures IsCall(Whole(c), name, Place(c, p)) <==> CallIn(c, name, p)
  {
    match p
    case InHead(i) =>
      assert Whole(c) == c.head + (Middle(c) + c.tail);
      hide Middle, IsCall;
      CallInPrefix(c.head, Middle(c) + c.tail, name, i);
    case InInner(i) =>
      CallInInner(c, name, factory, i);
    case InTail(i) =>
      hide Middle;
      if i > 0 {
        CallIsLocal(c.head + Middle(c), c.tail, name, i);
      } else {
        assert Whole(c)[Place(c, p)] == ')';
      }
  }

  lemma CallInInner(c: Cut, name: string, factory: string, i: nat)
    requires Cutting(c, name, factory) && i < |c.inner|
    ensures IsCall(Whole(c), name, Place(c, InInner(i))) <==> IsCall(c.inner, name, i)
  {
    var rest := c.inner + (c.right + c.tail);
    CallInPrefix(c.inner, c.right + c.tail, name, i);
    if c.left == factory + "(" {
      assert Whole(c) == (c.head + c.left) + rest;
      assert Last(c.head + c.left) == '(';
      hide IsCall, Above, Balance;
      CallIsLocal(c.head + c.left, rest, name, i);
    } else {
      assert Whole(c) == c.head + (c.left + rest);
      hide IsCall, Above, Balance;
      CallIsLocal(c.head, c.left + rest, name, |c.left| + i);
      BlankBefore(c.left, rest, name, i);
    }
  }

  lemma SideHasNoCall(c: Cut, name: string, factory: string, q: nat)
    requires Cutting(c, name, factory)
    requires |c.head| <= q < |c.head| + |c.left| || |c.head| + |c.left| + |c.inner| <= q < |c.head| + |Middle(c)|
    ensures !IsCall(Whole(c), name, q)
  {
    var m := q - |c.head|;
    assert Whole(c)[q] == Middle(c)[m];
    if m < |c.left| {
      assert Middle(c)[m] == c.left[m];
      if c.left == factory + "(" {
        if m < |factory| {
          assert c.left[m] in factory;
        } else {
          FactoryIsNoCall(c, name, factory);
        }
      }
    } else {
      assert Middle(c)[m] == c.right[m - |c.left| - |c.inner|];
    }
    hide Above, Balance, Head;
  }

  lemma FactoryIsNoCall(c: Cut, name: string, factory: string)
    requires Cutting(c, name, factory) && c.left == factory + "("
    ensures !IsCall(Whole(c), name, |c.head| + |factory|)
  {
    var rest := c.inner + (c.right + c.tail);
    assert Whole(c) == c.head + (factory + "(" + rest);
    hide IsCall, Above, Balance, Middle, Whole;
    NameIsNoCall(factory, rest, name);
    CallIsLocal(c.head, factory + "(" + rest, name, |factory|);
  }

  /** Every call stands at such a position. */
  lemma CallPlaced(c: Cut, name: string, factory: string, q: nat) returns (p: Pos)
    requires Cutting(c, name, factory) && IsCall(Whole(c), name, q)
    ensures Inside(c, p) && Place(c, p) == q
  {
    assert q < |Whole(c)| == |c.head| + |Middle(c)| + |c.tail| && |Middle(c)| == |c.left| + |c.inner| + |c.right|;
    hide IsCall, Whole, Middle, Cutting;
    if q < |c.head| {
      p := InHead(q);
    } else if q >= |c.head| + |Middle(c)| {
      p := InTail(q - |c.head| - |Middle(c)|);
    } else if |c.head| + |c.left| <= q < |c.head| + |c.left| + |c.inner| {
      p := InInner(q - |c.head| - |c.left|);
    } else {
      SideHasNoCall(c, name, factory, q);
      assert false;
    }
  }

  /* ---------- Whether the arguments are wrapped ---------- */

  predicate StartsWrapped(factory: string, s: string) {
    factory + "(" <= Strip(s)
  }

  lemma {:induction false} StripRightKeeps(s: string, k: nat)
    requires k < |s| && !IsSpace(s[k])
    ensures k < |StripRight(s)| && StripRight(s) <= s
    decreases |s|
  {
    if IsSpace(Last(s)) {
      StripRightKeeps(s[..|s| - 1], k);
    }
  }

  lemma StartsWrappedLeft(factory: string, s: string)
    ensures StartsWrapped(factory, s) <==> factory + "(" <= StripLeft(s)
  {
    var l := StripLeft(s);
    StripRightStarts(l);
    if factory + "(" <= l {
      assert l[|factory|] == '(';
      StripRightKeeps(l, |factory|);
    }
  }

  lemma {:induction false} StripRightStarts(s: string)
    ensures StripRight(s) <= s
    decreases |s|
  {
    if s != [] && IsSpace(Last(s)) {
      StripRightStarts(s[..|s| - 1]);
    }
  }

  lemma {:induction false} StripLeftConcat(a: string, b: string, k: nat)
    requires k < |a| && !IsSpace(a[k])
    ensures StripLeft(a + b) == StripLeft(a) + b
    ensures a[k] in StripLeft(a)
    decreases |a|
  {
    if IsSpace(a[0]) {
      assert (a + b)[1..] == a[1..] + b;
      StripLeftConcat(a[1..], b, k - 1);
    } else {
      assert (a + b)[0] == a[0];
    }
  }

  // What follows the first parenthesis does not matter.
  lemma WrappedByPrefix(factory: string, a: string, b: string, k: nat)
    requires IsName(factory) && k < |a| && a[k] == '('
    ensures StartsWrapped(factory, a + b) <==> StartsWrapped(factory, a)
  {
    StartsWrappedLeft(factory, a);
    StartsWrappedLeft(factory, a + b);
    StripLeftConcat(a, b, k);
    hide StartsWrapped, StripLeft;
    PrefixByParenthesis(factory, StripLeft(a), b);
  }

  lemma PrefixByParenthesis(factory: string, l: string, b: string)
    requires IsName(factory) && '(' in l
    ensures factory + "(" <= l + b <==> factory + "(" <= l
  {
    var f := factory + "(";
    if |l| >= |f| {
      assert (l + b)[..|f|] == l[..|f|];
    } else {
      var j :| 0 <= j < |l| && l[j] == '(';
      assert f[j] == factory[j] && factory[j] in factory;
      assert (l + b)[j] == l[j];
    }
  }

  // Whether the arguments of the call are already wrapped, as far as the text outside the sides tells.
  predicate WrappedIn(c: Cut, factory: string, p: Pos)
    requires Inside(c, p) && CloseIn(c, p).Some?
  {
    match (p, CloseIn(c, p).value)
    case (InHead(i), InHead(m)) => i < m && StartsWrapped(factory, c.head[i + 1..m])
    case (InHead(i), InTail(_)) => StartsWrapped(factory, c.head[i + 1..])
    case (InInner(i), InInner(m)) => i < m && StartsWrapped(factory, c.inner[i + 1..m])
    case (InTail(i), InTail(m)) => i < m && StartsWrapped(factory, c.tail[i + 1..m])
    case (_, _) => false
  }

  // The call the cut was made for.
  function Own(c: Cut): Pos
    requires c.head != []
  {
    InHead(|c.head| - 1)
  }

  lemma CharPlaced(c: Cut, p: Pos)
    requires Inside(c, p)
    ensures Place(c, p) < |Whole(c)| && Whole(c)[Place(c, p)] == CharAt(c, p)
  {
    match p
    case InHead(i) =>
    case InInner(i) => FromInner(c, i);
    case InTail(i) =>
  }

  lemma MatchAfter(text: string, o: nat)
    requires o < |text| && text[o] == '('
    ensures Match(text, o).Some? ==> o < Match(text, o).value < |text|
  {
  }

  lemma WrappedPlaced(c: Cut, name: string, factory: string, p: Pos)
    requires Cutting(c, name, factory) && Inside(c, p) && p != Own(c) && CharAt(c, p) == '(' && CloseIn(c, p).Some?
    ensures var q := CloseIn(c, p).value;
      && Place(c, p) < Place(c, q) < |Whole(c)|
      && (StartsWrapped(factory, Whole(c)[Place(c, p) + 1..Place(c, q)]) <==> WrappedIn(c, factory, p))
  {
    hide *;
    MatchAt(c, name, factory, p);
    CharPlaced(c, p);
    MatchAfter(Whole(c), Place(c, p));
    HeadOpens(c, name, factory);
    PosMeans(c, p);
    match p
    case InHead(i) => WrappedInHead(c, factory, i);
    case InInner(i) => WrappedInInner(c, factory, i);
    case InTail(i) => WrappedInTail(c, factory, i);
  }

  lemma PosMeans(c: Cut, p: Pos)
    requires c.head != [] && Inside(c, p) && p != Own(c)
    ensures match p
      case InHead(i) => i < |c.head| - 1 && Place(c, p) == i
      case InInner(i) => i < |c.inner|
      case InTail(i) => i < |c.tail|
  {
  }

  lemma HeadOpens(c: Cut, name: string, factory: string)
    requires Cutting(c, name, factory)
    ensures c.head != [] && Last(c.head) == '(' && IsName(factory)
  {
    hide Above, Balance;
  }

  lemma WrappedInHead(c: Cut, factory: string, i: nat)
    requires IsName(factory) && c.head != [] && Last(c.head) == '(' && i < |c.head| - 1 && CloseIn(c, InHead(i)).Some?
    requires var q := Place(c, CloseIn(c, InHead(i)).value); i < q < |Whole(c)|
    ensures var q := Place(c, CloseIn(c, InHead(i)).value);
      StartsWrapped(factory, Whole(c)[i + 1..q]) <==> WrappedIn(c, factory, InHead(i))
  {
    hide StartsWrapped, Scan, Balance, Middle;
    if CloseIn(c, InHead(i)).value.InHead? {
      SliceHead(c.head, Middle(c), c.tail, i + 1, CloseIn(c, InHead(i)).value.i);
    } else {
      WrappedAcross(factory, c.head, Middle(c), c.tail, i, CloseIn(c, InHead(i)).value.i);
    }
  }

  lemma SliceHead(a: string, m: string, z: string, i: nat, j: nat)
    requires i <= j <= |a|
    ensures (a + m + z)[i..j] == a[i..j]
  {
    assert (a + m + z)[i..j] == (a + m)[i..j];
  }

  lemma WrappedAcross(factory: string, head: string, m: string, tail: string, i: nat, j: nat)
    requires IsName(factory) && head != [] && Last(head) == '(' && i < |head| - 1 && j <= |tail|
    ensures StartsWrapped(factory, (head + m + tail)[i + 1..|head| + |m| + j]) <==> StartsWrapped(factory, head[i + 1..])
  {
    hide StartsWrapped, IsName;
    SliceAcross(head, m, tail, i + 1, j);
    var a := head[i + 1..];
    assert a[|a| - 1] == Last(head);
    WrappedByPrefix(factory, a, m + tail[..j], |a| - 1);
  }

  lemma WrappedInInner(c: Cut, factory: string, i: nat)
    requires i < |c.inner| && CloseIn(c, InInner(i)).Some?
    requires Place(c, InInner(i)) < Place(c, CloseIn(c, InInner(i)).value) < |Whole(c)|
    ensures StartsWrapped(factory, Whole(c)[Place(c, InInner(i)) + 1..Place(c, CloseIn(c, InInner(i)).value)])
      <==> WrappedIn(c, factory, InInner(i))
  {
    hide StartsWrapped, Scan, Balance;
    var m := CloseIn(c, InInner(i)).value.i;
    assert Whole(c) == (c.head + c.left) + c.inner + (c.right + c.tail);
    hide Whole, Middle;
    SliceMiddle(c.head + c.left, c.inner, c.right + c.tail, i + 1, m);
  }

  lemma WrappedInTail(c: Cut, factory: string, i: nat)
    requires i < |c.tail| && CloseIn(c, InTail(i)).Some?
    requires Place(c, InTail(i)) < Place(c, CloseIn(c, InTail(i)).value) < |Whole(c)|
    ensures StartsWrapped(factory, Whole(c)[Place(c, InTail(i)) + 1..Place(c, CloseIn(c, InTail(i)).value)])
      <==> WrappedIn(c, factory, InTail(i))
  {
    hide StartsWrapped, Scan, Balance, Middle;
    ShiftedSlice(c.head + Middle(c), c.tail, i + 1, CloseIn(c, InTail(i)).value.i);
  }

  lemma SliceAcross(a: string, m: string, z: string, i: nat, j: nat)
    requires i <= |a| && j <= |z|
    ensures (a + m + z)[i..|a| + |m| + j] == a[i..] + (m + z[..j])
  {
  }

  lemma SliceMiddle(a: string, b: string, z: string, i: nat, j: nat)
    requires i <= j <= |b|
    ensures (a + b + z)[|a| + i..|a| + j] == b[i..j]
  {
  }

  /* ---------- Sites ---------- */

  predicate ClosedIn(c: Cut, name: string, p: Pos) {
    Inside(c, p) && CallIn(c, name, p) && CloseIn(c, p).Some?
  }

  predicate SiteIn(c: Cut, name: string, factory: string, p: Pos) {
    ClosedIn(c, name, p) && !WrappedIn(c, factory, p)
  }

  lemma CallOpens(c: Cut, name: string, p: Pos)
    requires Inside(c, p) && CallIn(c, name, p)
    ensures CharAt(c, p) == '('
  {
    hide Head;
  }

  /** A closed call of the whole text is one the text outside the sides tells of, closed where it tells. */
  lemma ClosedAt(c: Cut, name: string, factory: string, p: Pos)
    requires Cutting(c, name, factory) && Inside(c, p)
    ensures Matched(Whole(c), name, Place(c, p)) <==> ClosedIn(c, name, p)
    ensures ClosedIn(c, name, p) ==> Match(Whole(c), Place(c, p)) == Some(Place(c, CloseIn(c, p).value))
  {
    CallAt(c, name, factory, p);
    if CallIn(c, name, p) {
      CallOpens(c, name, p);
      MatchAt(c, name, factory, p);
    }
    hide Whole, Middle, CallIn, CloseIn, IsCall, Match, Cutting, Place;
  }

  /** So is a site, the call the cut was made for aside. */
  lemma SiteAt(c: Cut, name: string, factory: string, p: Pos)
    requires Cutting(c, name, factory) && Inside(c, p) && p != Own(c)
    ensures Site(Whole(c), name, factory, Place(c, p)) <==> SiteIn(c, name, factory, p)
  {
    ClosedAt(c, name, factory, p);
    if ClosedIn(c, name, p) {
      CallOpens(c, name, p);
      WrappedPlaced(c, name, factory, p);
      SiteIs(Whole(c), name, factory, Place(c, p), Place(c, CloseIn(c, p).value));
      MatchedCalls(Whole(c), name, Place(c, p));
    } else {
      SiteOnlyMatched(Whole(c), name, factory, Place(c, p));
    }
    hide Whole, Middle, CallIn, CloseIn, IsCall, Match, Cutting, Place, WrappedIn, Site, Matched;
  }

  lemma MatchedCalls(text: string, name: string, o: nat)
    requires Matched(text, name, o)
    ensures o < |text| && IsCall(text, name, o) && Match(text, o).Some?
  {
  }

  lemma SiteOnlyMatched(text: string, name: string, factory: string, o: nat)
    ensures Site(text, name, factory, o) ==> Matched(text, name, o)
  {
  }

  // Two cuts that differ in the sides only.
  predicate Alike(c: Cut, d: Cut) {
    c.head == d.head && c.inner == d.inner && c.tail == d.tail
  }

  lemma AlikeSites(c: Cut, d: Cut, name: string, factory: string, p: Pos)
    requires Alike(c, d)
    ensures Inside(c, p) <==> Inside(d, p)
    ensures ClosedIn(c, name, p) <==> ClosedIn(d, name, p)
    ensures Inside(c, p) ==> CloseIn(c, p) == CloseIn(d, p)
    ensures SiteIn(c, name, factory, p) <==> SiteIn(d, name, factory, p)
  {
    hide IsCall, Scan, StartsWrapped, Balance;
  }

  // Order of places.
  predicate Before(p: Pos, q: Pos) {
    match (p, q)
    case (InHead(i), InHead(j)) => i < j
    case (InHead(_), _) => true
    case (InInner(i), InInner(j)) => i < j
    case (InInner(_), InTail(_)) => true
    case (InTail(i), InTail(j)) => i < j
    case (_, _) => false
  }

  lemma PlaceOrder(c: Cut, p: Pos, q: Pos)
    requires Inside(c, p) && Inside(c, q)
    ensures Place(c, p) < Place(c, q) <==> Before(p, q)
  {
  }
}
