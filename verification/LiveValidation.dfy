/**
 The live validation adapter (adapters/validation.py): four checks are built from what Maven, the
 test reports, the dependency tree and the license metadata say, and aggregated into one verdict.
 */
module LiveValidation {
  import opened Collections
  import opened Verdicts

  datatype Coordinate = Coordinate(group: string, artifact: string, version: string)

  datatype TreeEntry = TreeEntry(coordinate: Coordinate, scope: string)

  datatype TreeScan = Tree(entries: seq<TreeEntry>) | TreeUnavailable

  // Outcome of fetching the licenses of one coordinate: names, an HTTP error, or an unreadable POM.
  datatype Fetch = Licenses(names: seq<string>) | HttpError | Unreadable

  datatype Context = Context(group: string, artifact: string, target: string)

  datatype TestReports = TestReports(failures: nat, errors: nat)

  datatype LiveInput = LiveInput(
    verifyPassed: bool, reports: Option<TestReports>, tree: TreeScan, context: Option<Context>,
    fetches: map<Coordinate, Fetch>, denylist: seq<string>, allowlist: seq<string>)

  const NoPhrases: DetailPhrases := DetailPhrases(false, false, false, false)

  const CompileName: NameWords := NameWords(true, false, false, false)
  const TestName: NameWords := NameWords(false, true, false, false)
  const SecurityName: NameWords := NameWords(false, false, true, false)
  const LicenseName: NameWords := NameWords(false, false, false, true)

  /* ---------- Security ---------- */

  // The distinct versions the tree resolves the package to.
  function MatchingVersions(entries: seq<TreeEntry>, ctx: Context): set<string> {
    set e | e in entries && e.coordinate.group == ctx.group && e.coordinate.artifact == ctx.artifact :: e.coordinate.version
  }

  function SecurityCheck(tree: TreeScan, context: Option<Context>): Check {
    if context.None? then Check(SecurityName, CheckPending, NoPhrases)
    else if tree.TreeUnavailable? then Check(SecurityName, CheckFailed, NoPhrases.(uninspectable := true))
    else
      var versions := MatchingVersions(tree.entries, context.value);
      if versions == {} || versions == {context.value.target} then Check(SecurityName, CheckPassed, NoPhrases)
      else Check(SecurityName, CheckFailed, NoPhrases.(stillResolves := true, expectedOnly := true))
  }

  // Some entry for the package has another version than the target.
  predicate StaysVulnerable(entries: seq<TreeEntry>, ctx: Context) {
    exists e :: e in entries && e.coordinate.group == ctx.group && e.coordinate.artifact == ctx.artifact && e.coordinate.version != ctx.target
  }

  /** The security check is pending exactly without dependency context. With context it fails exactly when
      the tree could not be inspected, and then as transient, or some entry for the package has another
      version than the target; otherwise it passes. */
  lemma SecurityExactly(tree: TreeScan, context: Option<Context>)
    ensures var c := SecurityCheck(tree, context);
      && (c.status == CheckPending <==> context.None?)
      && (c.status == CheckFailed <==> context.Some? && (tree.TreeUnavailable? || StaysVulnerable(tree.entries, context.value)))
      && (c.status == CheckFailed && IsTransient(c) <==> context.Some? && tree.TreeUnavailable?)
      && (c.status == CheckPassed <==> context.Some? && tree.Tree? && !StaysVulnerable(tree.entries, context.value))
  {
    if tree.Tree? && context.Some? {
      var entries, ctx := tree.entries, context.value;
      var versions := MatchingVersions(entries, ctx);
      forall e | e in entries && e.coordinate.group == ctx.group && e.coordinate.artifact == ctx.artifact
        ensures e.coordinate.version in versions
      {
      }
      if versions <= {ctx.target} {
        assert versions == {} || versions == {ctx.target};
      }
    }
  }

  /* ---------- Licenses ---------- */

  predicate OccursAt(sub: string, text: string, i: nat) {
    i + |sub| <= |text| && text[i..i + |sub|] == sub
  }

  predicate Occurs(sub: string, text: string) {
    exists i: nat | i <= |text| :: OccursAt(sub, text, i)
  }

  function Aliases(pattern: string): seq<string> {
    [pattern] +
    (if pattern == "gpl" then ["gnu general public license", "general public license"]
     else if pattern == "lgpl" then ["gnu lesser general public license", "lesser general public license"]
     else if pattern == "agpl" then ["gnu affero general public license", "affero general public license"]
     else [])
  }

  predicate MatchesPolicy(license: string, patterns: seq<string>) {
    exists p, a :: p in patterns && a in Aliases(p) && Occurs(a, license)
  }

  lemma OccursInside(a: string, sub: string, b: string)
    ensures Occurs(sub, a + sub + b)
  {
    assert OccursAt(sub, a + sub + b, |a|);
  }

  /** A policy that names a GNU license by its short name matches every license text that spells it out,
      with or without "GNU", whatever stands around it. */
  lemma ShortNamesMatch(a: string, b: string, patterns: seq<string>)
    ensures "gpl" in patterns ==>
      MatchesPolicy(a + "gnu general public license" + b, patterns) && MatchesPolicy(a + "general public license" + b, patterns)
    ensures "lgpl" in patterns ==>
      && MatchesPolicy(a + "gnu lesser general public license" + b, patterns)
      && MatchesPolicy(a + "lesser general public license" + b, patterns)
    ensures "agpl" in patterns ==>
      && MatchesPolicy(a + "gnu affero general public license" + b, patterns)
      && MatchesPolicy(a + "affero general public license" + b, patterns)
    ensures forall p :: p in patterns ==> MatchesPolicy(a + p + b, patterns)
  {
    forall p, alias | p in patterns && alias in Aliases(p)
      ensures MatchesPolicy(a + alias + b, patterns)
    {
      OccursInside(a, alias, b);
      hide Occurs, Aliases;
    }
    hide Occurs, MatchesPolicy;
    AliasesAre();
  }

  lemma AliasesAre()
    ensures forall p :: p in Aliases(p)
    ensures "gnu general public license" in Aliases("gpl") && "general public license" in Aliases("gpl")
    ensures "gnu lesser general public license" in Aliases("lgpl") && "lesser general public license" in Aliases("lgpl")
    ensures "gnu affero general public license" in Aliases("agpl") && "affero general public license" in Aliases("agpl")
  {
    assert |"gpl"| == 3 && |"lgpl"| == 4 && |"agpl"| == 4 && "lgpl"[0] == 'l' && "agpl"[0] == 'a';
  }

  lemma OccursWithin(pre: string, inner: string, text: string)
    requires Occurs(pre + inner, text)
    ensures Occurs(inner, text)
  {
    var outer := pre + inner;
    var j: nat :| j <= |text| && OccursAt(outer, text, j);
    var there := text[j + |pre|..j + |outer|];
    forall k | 0 <= k < |inner|
      ensures there[k] == inner[k]
    {
      assert text[j..j + |outer|][|pre| + k] == outer[|pre| + k];
    }
    assert there == inner;
    assert OccursAt(inner, text, j + |pre|);
  }

  lemma Gpl()
    ensures "gnu " + "general public license" == "gnu general public license"
  {
  }

  lemma Lgpl()
    ensures "gnu " + "lesser general public license" == "gnu lesser general public license"
  {
  }

  lemma Agpl()
    ensures "gnu " + "affero general public license" == "gnu affero general public license"
  {
  }

  // The part of the spelled-out name that both aliases of a short name contain.
  function SpelledOut(pattern: string): Option<string> {
    if pattern == "gpl" then Some("general public license")
    else if pattern == "lgpl" then Some("lesser general public license")
    else if pattern == "agpl" then Some("affero general public license")
    else None
  }

  lemma AliasMatches(pattern: string, license: string)
    ensures (exists a :: a in Aliases(pattern) && Occurs(a, license)) <==>
      Occurs(pattern, license) || (SpelledOut(pattern).Some? && Occurs(SpelledOut(pattern).value, license))
  {
    hide Occurs;
    AliasesAre();
    Gpl();
    Lgpl();
    Agpl();
    if SpelledOut(pattern).Some? {
      var spelled := SpelledOut(pattern).value;
      if Occurs("gnu " + spelled, license) {
        OccursWithin("gnu ", spelled, license);
      }
    }
  }

  /** A policy matches a license text exactly when one of its patterns occurs in it, or the spelled-out
      name of one of the three short names does. */
  lemma MatchesExactly(license: string, patterns: seq<string>)
    ensures MatchesPolicy(license, patterns) <==>
      exists p ::
        && p in patterns
        && (Occurs(p, license) || (SpelledOut(p).Some? && Occurs(SpelledOut(p).value, license)))
  {
    hide Occurs, SpelledOut, Aliases;
    forall p
      ensures (exists a :: a in Aliases(p) && Occurs(a, license)) <==>
        Occurs(p, license) || (SpelledOut(p).Some? && Occurs(SpelledOut(p).value, license))
    {
      AliasMatches(p, license);
    }
  }

  /** So a list that names the GPL also matches every text that spells out the LGPL or the AGPL. */
  lemma GplMatchesItsRelatives(a: string, b: string)
    ensures MatchesPolicy(a + "lesser general public license" + b, ["gpl"])
    ensures MatchesPolicy(a + "affero general public license" + b, ["gpl"])
  {
    RelativesSpelledOut(a, b);
    hide *;
    ShortNamesMatch(a + "lesser ", b, ["gpl"]);
    ShortNamesMatch(a + "affero ", b, ["gpl"]);
  }

  lemma RelativesSpelledOut(a: string, b: string)
    ensures a + "lesser " + "general public license" + b == a + "lesser general public license" + b
    ensures a + "affero " + "general public license" + b == a + "affero general public license" + b
  {
    assert "lesser " + "general public license" == "lesser general public license";
    assert "affero " + "general public license" == "affero general public license";
    assert a + "lesser " + "general public license" == a + ("lesser " + "general public license");
    assert a + "affero " + "general public license" == a + ("affero " + "general public license");
  }

  // The distinct coordinates outside test scope, in order of first occurrence.
  function ScanCoordinates(entries: seq<TreeEntry>): seq<Coordinate> {
    if entries == [] then []
    else
      var n := |entries| - 1;
      var before := ScanCoordinates(entries[..n]);
      if entries[n].scope == "test" || entries[n].coordinate in before then before else before + [entries[n].coordinate]
  }

  method IterLicenseScanCoordinates(entries: seq<TreeEntry>) returns (coordinates: seq<Coordinate>)
    ensures coordinates == ScanCoordinates(entries)
  {
    var seen: set<Coordinate> := {};
    coordinates := [];
    for i := 0 to |entries|
      invariant coordinates == ScanCoordinates(entries[..i])
      invariant forall c :: c in seen <==> c in coordinates
    {
      assert entries[..i + 1][..i] == entries[..i];
      var entry := entries[i];
      if entry.scope == "test" {
        continue;
      }
      if entry.coordinate in seen {
        continue;
      }
      seen := seen + {entry.coordinate};
      coordinates := coordinates + [entry.coordinate];
    }
    assert entries[..|entries|] == entries;
  }

  // The coordinate has an entry outside test scope.
  predicate InScope(entries: seq<TreeEntry>, c: Coordinate) {
    exists e :: e in entries && e.scope != "test" && e.coordinate == c
  }

  /** Each coordinate with an entry outside test scope is scanned exactly once. */
  lemma {:induction false} ScannedExactly(entries: seq<TreeEntry>)
    ensures NoDuplicates(ScanCoordinates(entries))
    ensures forall c :: c in ScanCoordinates(entries) <==> InScope(entries, c)
  {
    if entries != [] {
      var n := |entries| - 1;
      ScannedExactly(entries[..n]);
      assert forall e :: e in entries <==> e in entries[..n] || e == entries[n];
    }
  }

  datatype LicenseFinding = Acceptable | Disallowed | OutsideAllowlist | FetchFailed | Unresolved

  function FetchOf(input: LiveInput, c: Coordinate): Fetch {
    if c in input.fetches then input.fetches[c] else HttpError
  }

  function Finding(input: LiveInput, c: Coordinate): LicenseFinding {
    match FetchOf(input, c)
    case HttpError => FetchFailed
    case Unreadable => Unresolved
    case Licenses(names) =>
      if names == [] then Unresolved
      else if exists n :: n in names && MatchesPolicy(n, input.denylist) then Disallowed
      else if input.allowlist != [] && !exists n :: n in names && MatchesPolicy(n, input.allowlist) then OutsideAllowlist
      else Acceptable
  }

  predicate Enforcing(input: LiveInput) {
    input.denylist != [] || input.allowlist != []
  }

  predicate SomeFinding(input: LiveInput, coordinates: seq<Coordinate>, f: LicenseFinding) {
    exists c :: c in coordinates && Finding(input, c) == f
  }

  function LicenseCheck(input: LiveInput): Check {
    var lenient := if Enforcing(input) then CheckFailed else CheckPending;
    if input.tree.TreeUnavailable? then Check(LicenseName, lenient, NoPhrases.(uninspectable := true))
    else
      var coordinates := ScanCoordinates(input.tree.entries);
      if SomeFinding(input, coordinates, Disallowed) || SomeFinding(input, coordinates, OutsideAllowlist) then
        Check(LicenseName, CheckFailed, NoPhrases)
      else if SomeFinding(input, coordinates, FetchFailed) then Check(LicenseName, lenient, NoPhrases.(fetchTransient := true))
      else if SomeFinding(input, coordinates, Unresolved) then Check(LicenseName, lenient, NoPhrases)
      else Check(LicenseName, CheckPassed, NoPhrases)
  }

  // One pass of the scan loop: where the source would list the coordinate, if anywhere.
  method Inspect(input: LiveInput, c: Coordinate) returns (finding: LicenseFinding)
    ensures finding == Finding(input, c)
  {
    match FetchOf(input, c) {
      case HttpError =>
        return FetchFailed;
      case Unreadable =>
        return Unresolved;
      case Licenses(names) =>
        if names == [] {
          return Unresolved;
        }
        if exists n :: n in names && MatchesPolicy(n, input.denylist) {
          return Disallowed;
        }
        if input.allowlist != [] && !exists n :: n in names && MatchesPolicy(n, input.allowlist) {
          return OutsideAllowlist;
        }
        return Acceptable;
    }
  }

  // The list holds exactly the coordinates with this finding.
  predicate Lists(input: LiveInput, listed: seq<Coordinate>, coordinates: seq<Coordinate>, f: LicenseFinding) {
    && (forall c :: c in listed ==> c in coordinates && Finding(input, c) == f)
    && (SomeFinding(input, coordinates, f) ==> listed != [])
  }

  lemma ListsNext(input: LiveInput, listed: seq<Coordinate>, before: seq<Coordinate>, c: Coordinate, f: LicenseFinding)
    requires Lists(input, listed, before, f)
    ensures Lists(input, if Finding(input, c) == f then listed + [c] else listed, before + [c], f)
  {
    hide Finding;
  }

  lemma ListsSome(input: LiveInput, listed: seq<Coordinate>, coordinates: seq<Coordinate>, f: LicenseFinding)
    requires Lists(input, listed, coordinates, f)
    ensures listed != [] <==> SomeFinding(input, coordinates, f)
  {
    hide Finding;
    assert listed != [] ==> listed[0] in listed;
  }

  // The scan loop of the source fills one list per finding.
  method BuildLicenseCheck(input: LiveInput) returns (check: Check)
    ensures check == LicenseCheck(input)
  {
    var lenient := if Enforcing(input) then CheckFailed else CheckPending;
    if input.tree.TreeUnavailable? {
      return Check(LicenseName, lenient, NoPhrases.(uninspectable := true));
    }
    var coordinates := IterLicenseScanCoordinates(input.tree.entries);
    if coordinates == [] {
      return Check(LicenseName, CheckPassed, NoPhrases);
    }
    hide Finding, SomeFinding, Lists;
    var unresolved, fetchFailures, disallowed, outside := ScanLicenses(input, coordinates);
    ListsSome(input, unresolved, coordinates, Unresolved);
    ListsSome(input, fetchFailures, coordinates, FetchFailed);
    ListsSome(input, disallowed, coordinates, Disallowed);
    ListsSome(input, outside, coordinates, OutsideAllowlist);
    if disallowed != [] || outside != [] {
      return Check(LicenseName, CheckFailed, NoPhrases);
    }
    if fetchFailures != [] {
      return Check(LicenseName, lenient, NoPhrases.(fetchTransient := true));
    }
    if unresolved != [] {
      return Check(LicenseName, lenient, NoPhrases);
    }
    return Check(LicenseName, CheckPassed, NoPhrases);
  }

  method ScanLicenses(input: LiveInput, coordinates: seq<Coordinate>)
    returns (unresolved: seq<Coordinate>, fetchFailures: seq<Coordinate>, disallowed: seq<Coordinate>, outside: seq<Coordinate>)
    ensures Lists(input, unresolved, coordinates, Unresolved)
    ensures Lists(input, fetchFailures, coordinates, FetchFailed)
    ensures Lists(input, disallowed, coordinates, Disallowed)
    ensures Lists(input, outside, coordinates, OutsideAllowlist)
  {
    unresolved, fetchFailures, disallowed, outside := [], [], [], [];
    hide Finding;
    for i := 0 to |coordinates|
      invariant Lists(input, unresolved, coordinates[..i], Unresolved)
      invariant Lists(input, fetchFailures, coordinates[..i], FetchFailed)
      invariant Lists(input, disallowed, coordinates[..i], Disallowed)
      invariant Lists(input, outside, coordinates[..i], OutsideAllowlist)
    {
      hide Lists;
      var c := coordinates[i];
      assert coordinates[..i + 1] == coordinates[..i] + [c];
      ListsNext(input, unresolved, coordinates[..i], c, Unresolved);
      ListsNext(input, fetchFailures, coordinates[..i], c, FetchFailed);
      ListsNext(input, disallowed, coordinates[..i], c, Disallowed);
      ListsNext(input, outside, coordinates[..i], c, OutsideAllowlist);
      var finding := Inspect(input, c);
      match finding {
        case Unresolved => unresolved := unresolved + [c];
        case FetchFailed => fetchFailures := fetchFailures + [c];
        case Disallowed => disallowed := disallowed + [c];
        case OutsideAllowlist => outside := outside + [c];
        case Acceptable =>
      }
    }
    assert coordinates[..|coordinates|] == coordinates;
  }

  // The dependency has license metadata, none of it denied, and some of it allowed if an allowlist is given.
  predicate Clean(input: LiveInput, c: Coordinate) {
    match FetchOf(input, c)
    case Licenses(names) =>
      && names != []
      && (forall n :: n in names ==> !MatchesPolicy(n, input.denylist))
      && (input.allowlist != [] ==> exists n :: n in names && MatchesPolicy(n, input.allowlist))
    case _ => false
  }

  lemma CleanIsAcceptable(input: LiveInput, c: Coordinate)
    ensures Clean(input, c) <==> Finding(input, c) == Acceptable
    ensures Finding(input, c) == Disallowed ==> input.denylist != []
    ensures Finding(input, c) == OutsideAllowlist ==> input.allowlist != []
  {
  }

  /** The license check passes exactly when every dependency outside test scope is clean; when one is
      not, it fails if a policy is enforced and stays pending otherwise. */
  lemma LicenseVerdictExactly(input: LiveInput)
    requires input.tree.Tree?
    ensures var all := forall e :: e in input.tree.entries && e.scope != "test" ==> Clean(input, e.coordinate);
      LicenseCheck(input).status == if all then CheckPassed else if Enforcing(input) then CheckFailed else CheckPending
  {
    var coordinates := ScanCoordinates(input.tree.entries);
    ScannedExactly(input.tree.entries);
    forall c
      ensures Clean(input, c) <==> Finding(input, c) == Acceptable
      ensures Finding(input, c) == Disallowed ==> input.denylist != []
      ensures Finding(input, c) == OutsideAllowlist ==> input.allowlist != []
    {
      CleanIsAcceptable(input, c);
    }
    hide Clean, Finding;
    if e :| e in input.tree.entries && e.scope != "test" && !Clean(input, e.coordinate) {
      assert InScope(input.tree.entries, e.coordinate);
      match Finding(input, e.coordinate)
      case Acceptable =>
      case Disallowed => assert SomeFinding(input, coordinates, Disallowed);
      case OutsideAllowlist => assert SomeFinding(input, coordinates, OutsideAllowlist);
      case FetchFailed => assert SomeFinding(input, coordinates, FetchFailed);
      case Unresolved => assert SomeFinding(input, coordinates, Unresolved);
    } else {
      assert forall c :: c in coordinates ==> Finding(input, c) == Acceptable;
    }
  }

  // The dependency has license metadata that the policy does not accept.
  predicate Refused(input: LiveInput, c: Coordinate) {
    match FetchOf(input, c)
    case Licenses(names) =>
      && names != []
      && ((exists n :: n in names && MatchesPolicy(n, input.denylist))
          || (input.allowlist != [] && forall n :: n in names ==> !MatchesPolicy(n, input.allowlist)))
    case _ => false
  }

  lemma RefusedIsListed(input: LiveInput, c: Coordinate)
    ensures Refused(input, c) <==> Finding(input, c) == Disallowed || Finding(input, c) == OutsideAllowlist
    ensures FetchOf(input, c).HttpError? <==> Finding(input, c) == FetchFailed
    ensures Refused(input, c) ==> Enforcing(input)
  {
  }

  /** A failed license check counts as transient exactly when the tree could not be inspected, or some
      dependency's metadata could not be fetched and no other dependency is refused outright. */
  lemma LicenseTransientExactly(input: LiveInput)
    ensures LicenseCheck(input).status == CheckFailed && IsTransient(LicenseCheck(input)) <==>
      && Enforcing(input)
      && (input.tree.TreeUnavailable?
          || ((exists e :: e in input.tree.entries && e.scope != "test" && FetchOf(input, e.coordinate).HttpError?)
              && forall e :: e in input.tree.entries && e.scope != "test" ==> !Refused(input, e.coordinate)))
  {
    if input.tree.Tree? {
      var entries := input.tree.entries;
      var coordinates := ScanCoordinates(entries);
      ScannedExactly(entries);
      forall c
        ensures Refused(input, c) <==> Finding(input, c) == Disallowed || Finding(input, c) == OutsideAllowlist
        ensures FetchOf(input, c).HttpError? <==> Finding(input, c) == FetchFailed
      {
        RefusedIsListed(input, c);
      }
      hide Finding, Refused, FetchOf, ScanCoordinates;
      assert SomeFinding(input, coordinates, FetchFailed) <==>
        exists e :: e in entries && e.scope != "test" && FetchOf(input, e.coordinate).HttpError?;
      assert SomeFinding(input, coordinates, Disallowed) || SomeFinding(input, coordinates, OutsideAllowlist) <==>
        exists e :: e in entries && e.scope != "test" && Refused(input, e.coordinate);
    }
  }

  /** Reordering or repeating entries of the tree, or adding test-scoped ones, changes nothing. */
  lemma LicenseCheckIgnoresOrder(input: LiveInput, other: seq<TreeEntry>)
    requires input.tree.Tree?
    requires forall c :: InScope(input.tree.entries, c) <==> InScope(other, c)
    ensures LicenseCheck(input) == LicenseCheck(input.(tree := Tree(other)))
  {
    var changed := input.(tree := Tree(other));
    ScannedExactly(input.tree.entries);
    ScannedExactly(other);
    assert forall c :: c in ScanCoordinates(input.tree.entries) <==> c in ScanCoordinates(other);
    forall c
      ensures Finding(input, c) == Finding(changed, c)
    {
    }
    hide Finding;
    forall f
      ensures SomeFinding(input, ScanCoordinates(input.tree.entries), f) <==> SomeFinding(changed, ScanCoordinates(other), f)
    {
    }
  }

  /* ---------- The verdict ---------- */

  function CompileCheck(input: LiveInput): Check {
    Check(CompileName, if input.verifyPassed then CheckPassed else CheckFailed, NoPhrases)
  }

  predicate TestsPassed(reports: TestReports) {
    reports.failures == 0 && reports.errors == 0
  }

  function TestCheck(input: LiveInput): Check {
    match input.reports
    case None => Check(TestName, if input.verifyPassed then CheckPassed else CheckPending, NoPhrases)
    case Some(r) => Check(TestName, if TestsPassed(r) then CheckPassed else CheckFailed, NoPhrases)
  }

  function LiveChecks(input: LiveInput): seq<Check> {
    [CompileCheck(input), TestCheck(input), SecurityCheck(input.tree, input.context), LicenseCheck(input)]
  }

  // The result the adapter builds.
  function LiveResult(repository: string, input: LiveInput): ValidationResult {
    ValidationResult(
      repository,
      if SomeFailed(LiveChecks(input)) then CheckFailed else CheckPassed,
      LiveChecks(input),
      && SecurityCheck(input.tree, input.context).status == CheckFailed && input.tree.Tree?
      && LicenseCheck(input).status != CheckFailed)
  }

  predicate TestsFailed(input: LiveInput) {
    input.reports.Some? && (input.reports.value.failures > 0 || input.reports.value.errors > 0)
  }

  // The security scan finds the dependency unresolved, or cannot tell.
  predicate ScanFails(input: LiveInput) {
    input.context.Some? && (input.tree.TreeUnavailable? || StaysVulnerable(input.tree.entries, input.context.value))
  }

  // Some dependency outside test scope is not clean, or nobody can tell.
  predicate LicensesUnclear(input: LiveInput) {
    input.tree.TreeUnavailable? || exists e :: e in input.tree.entries && e.scope != "test" && !Clean(input, e.coordinate)
  }

  // The same under an enforced license policy.
  predicate LicensesFail(input: LiveInput) {
    Enforcing(input) && LicensesUnclear(input)
  }

  lemma LicenseFailsExactly(input: LiveInput)
    ensures LicenseCheck(input).status == CheckFailed <==> LicensesFail(input)
    ensures LicenseCheck(input).status == CheckPending <==> !Enforcing(input) && LicensesUnclear(input)
  {
    if input.tree.Tree? {
      LicenseVerdictExactly(input);
    }
    hide Clean, ScanCoordinates, SomeFinding;
  }

  lemma SecurityFailsExactly(input: LiveInput)
    ensures SecurityCheck(input.tree, input.context).status == CheckFailed <==> ScanFails(input)
    ensures SecurityCheck(input.tree, input.context).status == CheckPending <==> input.context.None?
    ensures ScanFails(input) ==> (IsTransient(SecurityCheck(input.tree, input.context)) <==> input.tree.TreeUnavailable?)
  {
    SecurityExactly(input.tree, input.context);
    hide SecurityCheck, StaysVulnerable, IsTransient;
  }

  // Which of the four checks cannot be decided: the tests without reports of a failed build, the scan
  // without dependency context, the licenses when nobody asks.
  function Undecided(input: LiveInput): (r: seq<bool>)
    ensures |r| == 4
  {
    [false, input.reports.None? && !input.verifyPassed, input.context.None?, !Enforcing(input) && LicensesUnclear(input)]
  }

  // Exactly the checks that cannot be decided are pending, and none is skipped.
  predicate DecidedOtherwise(checks: seq<Check>, undecided: seq<bool>) {
    && |checks| == |undecided|
    && forall i :: 0 <= i < |checks| ==> (checks[i].status == CheckPending <==> undecided[i]) && checks[i].status != CheckSkipped
  }

  lemma UndecidedExactly(input: LiveInput)
    ensures DecidedOtherwise(LiveChecks(input), Undecided(input))
  {
    SecurityFailsExactly(input);
    LicenseFailsExactly(input);
    NeverSkipped(input);
    hide SecurityCheck, LicenseCheck, ScanFails, LicensesFail, LicensesUnclear, IsTransient;
  }

  /** The adapter updates status and summary as it goes; in the end the result is failed exactly when
      Maven's verification failed, a test did, the security scan finds the dependency unresolved or cannot
      tell, or a license is not acceptable. The summary speaks of an unresolved dependency exactly when the
      scan found one and no license failure overwrote it. */
  method LoadLiveValidationResult(repository: string, input: LiveInput) returns (result: ValidationResult)
    ensures result.repository == repository && result.checks == LiveChecks(input)
    ensures result.status == CheckFailed <==> !input.verifyPassed || TestsFailed(input) || ScanFails(input) || LicensesFail(input)
    ensures result.status != CheckFailed ==> result.status == CheckPassed
    ensures |result.checks| == 4 && forall i :: 0 <= i < 4 ==>
      (result.checks[i].status == CheckFailed <==> [!input.verifyPassed, TestsFailed(input), ScanFails(input), LicensesFail(input)][i])
    ensures DecidedOtherwise(result.checks, Undecided(input))
    ensures result.unresolvedSummary <==> ScanFails(input) && input.tree.Tree? && !LicensesFail(input)
    ensures result == LiveResult(repository, input)
  {
    SecurityFailsExactly(input);
    LicenseFailsExactly(input);
    UndecidedExactly(input);
    hide SecurityCheck, LicenseCheck, ScanFails, LicensesFail, LicensesUnclear, IsTransient, Undecided, DecidedOtherwise;
    var checks: seq<Check> := [];
    var status := CheckPassed;
    var unresolved := false;
    if input.verifyPassed {
      checks := checks + [Check(CompileName, CheckPassed, NoPhrases)];
    } else {
      status := CheckFailed;
      checks := checks + [Check(CompileName, CheckFailed, NoPhrases)];
    }
    match input.reports {
      case None =>
        checks := checks + [Check(TestName, if status == CheckPassed then CheckPassed else CheckPending, NoPhrases)];
      case Some(reports) =>
        var testStatus := if TestsPassed(reports) then CheckPassed else CheckFailed;
        if testStatus == CheckFailed {
          status := CheckFailed;
        }
        checks := checks + [Check(TestName, testStatus, NoPhrases)];
    }
    var security := SecurityCheck(input.tree, input.context);
    checks := checks + [security];
    if security.status == CheckFailed {
      status := CheckFailed;
      unresolved := !IsTransient(security);
    }
    var license := BuildLicenseCheck(input);
    checks := checks + [license];
    if license.status == CheckFailed {
      status := CheckFailed;
      unresolved := false;
    }
    assert checks == LiveChecks(input);
    StatusOfFour(checks);
    result := ValidationResult(repository, status, checks, unresolved);
  }

  lemma NeverSkipped(input: LiveInput)
    ensures SecurityCheck(input.tree, input.context).status != CheckSkipped && LicenseCheck(input).status != CheckSkipped
  {
    hide SomeFinding, ScanCoordinates, MatchingVersions;
  }

  lemma StatusOfFour(checks: seq<Check>)
    requires |checks| == 4
    ensures SomeFailed(checks) <==>
      checks[0].status == CheckFailed || checks[1].status == CheckFailed
      || checks[2].status == CheckFailed || checks[3].status == CheckFailed
  {
    assert checks[0].status == CheckFailed ==> SomeFailed(checks);
    assert checks[1].status == CheckFailed ==> SomeFailed(checks);
    assert checks[2].status == CheckFailed ==> SomeFailed(checks);
    assert checks[3].status == CheckFailed ==> SomeFailed(checks);
  }

  /* ---------- Retrying a live failure ---------- */

  // What the first failed check of a live result says, in code and class.
  function LiveCode(c: Check): ErrorCode {
    if c.name.compile then ValidationCompileFailed
    else if c.name.test then ValidationTestFailed
    else if c.details.uninspectable || c.details.fetchTransient then ValidationTransientFailed
    else if c.name.security then ValidationSecurityFailed
    else ValidationLicenseFailed
  }

  function LiveClass(c: Check): Classification {
    if c.name.compile then CompileError
    else if c.name.test then TestFailure
    else if c.details.uninspectable || c.details.fetchTransient then NetworkTransient
    else if c.name.security then RecipeNoop
    else LicenseViolation
  }

  lemma LiveCheckShapes(input: LiveInput, i: nat)
    requires i < 4
    ensures var c := LiveChecks(input)[i];
      && c.name == [CompileName, TestName, SecurityName, LicenseName][i]
      && (i < 2 ==> c.details == NoPhrases)
      && (i == 2 && c.status == CheckFailed ==> c.details.uninspectable || (c.details.stillResolves && !c.details.fetchTransient))
  {
    hide ScanCoordinates, SomeFinding;
  }

  /** For every failed live result, the first failed check alone determines both the error code and
      the classification. */
  lemma FirstFailureDetermines(repository: string, input: LiveInput, errors: seq<WorkflowError>)
    requires SomeFailed(LiveChecks(input))
    ensures var result := LiveResult(repository, input); var first := result.checks[FirstFailed(result.checks)];
      && ErrorOfResult(result).code == LiveCode(first)
      && Classify(errors + [ErrorOfResult(result)], [result]) == LiveClass(first)
  {
    var result := LiveResult(repository, input);
    var checks := result.checks;
    var i := FirstFailed(checks);
    LiveCheckShapes(input, i);
    hide LicenseCheck, SecurityCheck;
    FirstFailedDecides(checks, result.unresolvedSummary);
    var all := errors + [ErrorOfResult(result)];
    assert Last(all) == ErrorOfResult(result) && Last([result]) == result;
  }

  /** For every live result, a failure is retryable exactly when Maven itself passed and every failed
      check is a test failure or a transient scan failure. */
  lemma LiveRetryExactly(repository: string, input: LiveInput, errors: seq<WorkflowError>)
    ensures RetryableResult(errors, [LiveResult(repository, input)]) <==> RecoverableChecks(LiveChecks(input))
    ensures RetryableResult(errors, [LiveResult(repository, input)]) ==> input.verifyPassed
  {
    var result := LiveResult(repository, input);
    var checks := LiveChecks(input);
    assert Last([result]) == result;
    RetryableResultExactly(errors, [result]);
    if SomeFailed(checks) {
      LiveCheckShapes(input, FirstFailed(checks));
      LiveCheckShapes(input, 0);
      hide LicenseCheck, SecurityCheck;
      assert checks[0] == CompileCheck(input);
      assert !input.verifyPassed ==> checks[0].status == CheckFailed && !IsRetryableCheck(checks[0]);
    }
  }
}
