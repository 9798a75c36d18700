/**
 What the lanes and the rollbacks of a run's log do to a workspace, and when a retry starts from the files
 the first attempt started from (nodes/remediation.py, nodes/validation.py, adapters/).
 */
module Attempts {
  import opened Collections
  import opened Workflow
  import opened Trace
  import opened Invariant
  import opened Verdicts
  import opened Steps
  import opened Failures
  import opened Runs
  import opened Changes
  import R = Rollback
  import P = PomUpsert

  type Files = map<Path, string>

  // A run has one execution mode for all its adapters. In fixture mode the POM lanes rewrite one POM, the
  // complex lane runs the scaffold, and the rollback only reads a report. In live mode the POM lanes run
  // recipes over the whole workspace, and the rollback restores the one POM they report.
  datatype Mode = Fixture | Live

  // A repository's workspace and what the lanes do to it; what a recipe does to the files is arbitrary.
  datatype Site = Site(
    mode: Mode, repo: R.Repo, pom: Path,
    editor: R.Editor, targets: seq<R.Target>, rewritePom: string -> string, recipe: Files -> Files)

  // The files after a lane, from the files before it. The live complex lane raises before its first edit.
  function Edited(site: Site, strategy: Strategy, files: Files): Files {
    match strategy
    case UnknownRoute => files
    case ComplexRefactor => if site.mode.Live? then files else R.Scaffolded(site.repo, site.editor, files, site.targets)
    case _ =>
      if site.mode.Live? then site.recipe(files)
      else if site.pom in files then files[site.pom := site.rewritePom(files[site.pom])]
      else files
  }

  predicate IsPomLane(strategy: Strategy) {
    strategy.SimpleUpdate? || strategy.TransitiveOverride?
  }

  // The modified files the live lanes report.
  function Reported(site: Site, strategy: Strategy): seq<Path> {
    if IsPomLane(strategy) then [site.repo.given + site.pom] else []
  }

  // The files after a rollback that is given these reported files.
  function Restored(site: Site, modified: seq<Path>, files: Files): Files {
    if site.mode.Fixture? then files
    else R.RolledBack(site.repo.head, files, R.RelativeRestorePaths(site.repo.given, modified))
  }

  // One failed attempt: the lane and the rollback of what it reported.
  function Round(site: Site, strategy: Strategy, files: Files): Files {
    Restored(site, Reported(site, strategy), Edited(site, strategy, files))
  }

  function Rounds(site: Site, strategy: Strategy, k: nat, files: Files): Files {
    if k == 0 then files else Round(site, strategy, Rounds(site, strategy, k - 1, files))
  }

  /* ---------- Playing a run on a workspace ---------- */

  function LaneAt(n: Node): Strategy
    requires IsLane(n)
  {
    if n.RemediateSimple? then SimpleUpdate else if n.RemediateTransitive? then TransitiveOverride else ComplexRefactor
  }

  // The files in the workspace of r after the move. The rollback gets the plan the node puts into the state.
  function FilesAfter(env: Env, site: Site, c: Config, m: Move, r: string, files: Files): Files {
    if !WorksOn(c, m, r) then files
    else if IsLane(c.node) then Edited(site, LaneAt(c.node), files)
    else if c.node.HandleValidationFailure? then
      match TickMove(env, c, m.input).s.rollback
      case Some(plan) => Restored(site, plan, files)
      case None => files
    else files
  }

  function Played(env: Env, site: Site, c: Config, moves: seq<Move>, r: string, files: Files): Files
    decreases |moves|
  {
    if moves == [] then files
    else Played(env, site, Step(env, c, moves[0]), moves[1..], r, FilesAfter(env, site, c, moves[0], r, files))
  }

  // What the latest lane execution for r reported, as its input says.
  function ReportAfter(c: Config, m: Move, r: string, reported: seq<Path>): seq<Path> {
    if WorksOn(c, m, r) && IsLane(c.node) then m.input.modified else reported
  }

  function LatestReport(env: Env, c: Config, moves: seq<Move>, r: string, reported: seq<Path>): seq<Path>
    decreases |moves|
  {
    if moves == [] then reported
    else LatestReport(env, Step(env, c, moves[0]), moves[1..], r, ReportAfter(c, moves[0], r, reported))
  }

  // The live lanes of the run report the POM they were asked to change.
  predicate TrueReport(site: Site, c: Config, m: Move, r: string) {
    site.mode.Live? && WorksOn(c, m, r) && IsLane(c.node) ==> m.input.modified == Reported(site, LaneAt(c.node))
  }

  predicate TrueReports(env: Env, site: Site, c: Config, moves: seq<Move>, r: string)
    decreases |moves|
  {
    moves != [] ==> TrueReport(site, c, moves[0], r) && TrueReports(env, site, Step(env, c, moves[0]), moves[1..], r)
  }

  // The attempts the log holds.
  function Tries(log: seq<Entry>, r: string): nat {
    if log == [] then 0
    else Tries(log[..|log| - 1], r) + (if Last(log).LaneRun? && Last(log).repo == r then 1 else 0)
  }

  lemma {:induction false} TriesConcat(log: seq<Entry>, entries: seq<Entry>, r: string)
    requires forall e :: e in entries ==> !(e.LaneRun? && e.repo == r)
    ensures Tries(log + entries, r) == Tries(log, r)
    decreases |entries|
  {
    if entries == [] {
      assert log + entries == log;
    } else {
      assert (log + entries)[..|log + entries| - 1] == log + entries[..|entries| - 1];
      TriesConcat(log, entries[..|entries| - 1], r);
    }
  }

  lemma TriesMore(log: seq<Entry>, e: Entry, r: string)
    ensures Tries(log + [e], r) == Tries(log, r) + if e.LaneRun? && e.repo == r then 1 else 0
  {
    assert (log + [e])[..|log|] == log;
  }

  lemma {:induction false} NotTried(log: seq<Entry>, r: string)
    requires !RanLane(log, r)
    ensures Tries(log, r) == 0
  {
    if log != [] {
      assert Last(log) in log && forall e :: e in log[..|log| - 1] ==> e in log;
      NoLane(log, r, Last(log));
      NotTried(log[..|log| - 1], r);
    }
  }

  /* ---------- Where the files stand ---------- */

  // A lane has run and its outcome is being judged.
  predicate Judges(n: Node) {
    n.PreflightValidate? || n.ValidateRemediation? || n.HandleValidationFailure?
  }

  // An attempt is about to begin, or a failed one was rolled back.
  predicate BetweenAttempts(c: Config) {
    || IsLane(c.node) || c.node.PrepareComplexRemediation?
    || (c.node.ClassifyFailure? && c.s.errors != [] && IsValidationCode(Last(c.s.errors).code))
  }

  ghost predicate Standing(site: Site, c: Config, r: string, start: Files, files: Files, reported: seq<Path>) {
    var k := Tries(c.log, r);
    && (k == 0 ==> files == start)
    && (c.s.working == Some(r) && Judges(c.node) ==>
          && c.s.route.Some? && c.s.modified == reported && k > 0
          && (site.mode.Live? ==> reported == Reported(site, c.s.route.value.strategy))
          && files == Edited(site, c.s.route.value.strategy, Rounds(site, c.s.route.value.strategy, k - 1, start)))
    && (c.s.working == Some(r) && BetweenAttempts(c) ==>
          c.s.route.Some? && files == Rounds(site, c.s.route.value.strategy, k, start))
  }

  // The update was taken.
  predicate Took(c: Config, o: Outcome, c': Config) {
    o.Done? && c'.s == o.state && c'.log == c.log + o.entries && c'.node in Successors(c.node)
  }

  lemma TickTakes(env: Env, c: Config, x: Input)
    requires Inv(env, c) && Inv(env, TickMove(env, c, x))
    ensures Took(c, Exec(env, c.node, c.s, x), TickMove(env, c, x))
  {
    hide *;
    NoFaultIn(env, TickMove(env, c, x));
    FollowTakes(env, c.(steps := c.steps + 1), c.node, Exec(env, c.node, c.s, x));
    TickFollows(env, c, x);
    TookIs(c, Exec(env, c.node, c.s, x), TickMove(env, c, x));
  }

  lemma TickFollows(env: Env, c: Config, x: Input)
    ensures var c' := Follow(env, c.(steps := c.steps + 1), c.node, Exec(env, c.node, c.s, x));
      var next := TickMove(env, c, x);
      next.s == c'.s && next.log == c'.log && next.node == c'.node && next.fault == c'.fault
  {
    hide Follow, Exec;
  }

  lemma TookIs(c: Config, o: Outcome, c': Config)
    requires o.Done? && c'.s == o.state && c'.log == c.log + o.entries && c'.node in Successors(c.node)
    ensures Took(c, o, c')
  {
    hide Successors;
  }

  lemma TookMeans(c: Config, o: Outcome, c': Config)
    requires Took(c, o, c')
    ensures o.Done? && c'.s == o.state && c'.log == c.log + o.entries && c'.node in Successors(c.node)
  {
    hide Successors;
  }

  lemma NoFaultIn(env: Env, c: Config)
    requires Inv(env, c)
    ensures c.fault.None?
  {
    hide Blank, Frame, AtNode, Bounded;
  }

  lemma NoRounds(site: Site, strategy: Strategy, files: Files)
    ensures Rounds(site, strategy, 0, files) == files
  {
  }

  /* ---------- Node by node ---------- */

  lemma AtLaneNode(env: Env, c: Config)
    requires Inv(env, c) && (IsLane(c.node) || c.node.PrepareComplexRemediation?)
    ensures c.s.working.Some? && c.s.route.Some?
    ensures IsLane(c.node) ==> c.s.route.value.strategy == LaneAt(c.node)
  {
    hide Frame, LogView, OwnedBy, Bounded, Dirty;
  }

  lemma LaneTakes(env: Env, n: Node, s: State, x: Input)
    requires IsLane(n) && s.working.Some?
    ensures var o := Exec(env, n, s, x); o.Done? ==>
      && o.entries == [LaneRun(s.working.value, LaneAt(n))] && o.state.working == s.working && o.state.route == s.route
      && o.state.modified == x.modified
    ensures forall m :: m in Successors(n) ==> Judges(m)
  {
  }

  lemma StandsAfterLane(
    site: Site, c: Config, c': Config, strategy: Strategy, r: string, start: Files, files: Files, files': Files,
    reported: seq<Path>, reported': seq<Path>)
    requires Standing(site, c, r, start, files, reported) && c.s.working.Some?
    requires BetweenAttempts(c) && c.s.route.Some? && c.s.route.value.strategy == strategy
    requires c'.s.working == c.s.working && c'.s.route == c.s.route && Judges(c'.node)
    requires c'.log == c.log + [LaneRun(c.s.working.value, strategy)]
    requires if c.s.working == Some(r) then
        && files' == Edited(site, strategy, files) && reported' == c'.s.modified
        && (site.mode.Live? ==> reported' == Reported(site, strategy))
      else files' == files && reported' == reported
    ensures Standing(site, c', r, start, files', reported')
  {
    TriesMore(c.log, LaneRun(c.s.working.value, strategy), r);
    hide Edited, Rounds, Tries, Reported;
  }

  lemma AfterLane(env: Env, site: Site, c: Config, x: Input, r: string, files: Files, reported: seq<Path>)
    requires IsLane(c.node) && Enabled(c, Tick(x)) && TrueReport(site, c, Tick(x), r)
    ensures if c.s.working == Some(r) then
        && FilesAfter(env, site, c, Tick(x), r, files) == Edited(site, LaneAt(c.node), files)
        && ReportAfter(c, Tick(x), r, reported) == x.modified
        && (site.mode.Live? ==> x.modified == Reported(site, LaneAt(c.node)))
      else FilesAfter(env, site, c, Tick(x), r, files) == files && ReportAfter(c, Tick(x), r, reported) == reported
    ensures BetweenAttempts(c)
  {
    hide Enabled, Edited, Reported, TickMove;
  }

  lemma LaneStands(
    env: Env, site: Site, c: Config, x: Input, r: string, start: Files, files: Files, reported: seq<Path>)
    requires Inv(env, c) && IsLane(c.node) && Standing(site, c, r, start, files, reported)
    requires Enabled(c, Tick(x)) && TrueReport(site, c, Tick(x), r)
    requires Took(c, Exec(env, c.node, c.s, x), TickMove(env, c, x))
    ensures Standing(site, TickMove(env, c, x), r, start,
      FilesAfter(env, site, c, Tick(x), r, files), ReportAfter(c, Tick(x), r, reported))
  {
    hide *;
    AtLaneNode(env, c);
    LaneTakes(env, c.node, c.s, x);
    TookMeans(c, Exec(env, c.node, c.s, x), TickMove(env, c, x));
    AfterLane(env, site, c, x, r, files, reported);
    StandsAfterLane(site, c, TickMove(env, c, x), LaneAt(c.node), r, start, files, FilesAfter(env, site, c, Tick(x), r, files),
      reported, ReportAfter(c, Tick(x), r, reported));
  }

  lemma CheckTakes(env: Env, n: Node, s: State, x: Input)
    requires n.PreflightValidate? || n.ValidateRemediation? || n.PrepareComplexRemediation?
    ensures var o := Exec(env, n, s, x); o.Done? && s.working.Some? ==>
      && (forall e :: e in o.entries ==> !e.LaneRun?) && o.state.working == s.working && o.state.route == s.route
      && o.state.modified == s.modified
    ensures n.PrepareComplexRemediation? ==> forall m :: m in Successors(n) ==> m.ExecuteComplexScaffold?
    ensures !n.PrepareComplexRemediation? ==> forall m :: m in Successors(n) ==> !IsLane(m) && !m.PrepareComplexRemediation? && !m.ClassifyFailure?
  {
  }

  lemma StandsAfterCheck(site: Site, c: Config, c': Config, entries: seq<Entry>, r: string, start: Files, files: Files, reported: seq<Path>)
    requires Standing(site, c, r, start, files, reported)
    requires c'.s.working == c.s.working && c'.s.route == c.s.route && c'.s.modified == c.s.modified
    requires c'.log == c.log + entries && forall e :: e in entries ==> !e.LaneRun?
    requires if c.node.PrepareComplexRemediation? then c'.node.ExecuteComplexScaffold?
      else Judges(c.node) && !IsLane(c'.node) && !c'.node.PrepareComplexRemediation? && !c'.node.ClassifyFailure?
    ensures Standing(site, c', r, start, files, reported)
  {
    TriesConcat(c.log, entries, r);
    hide Edited, Rounds, Tries, Reported;
  }

  lemma CheckStands(
    env: Env, site: Site, c: Config, x: Input, r: string, start: Files, files: Files, reported: seq<Path>)
    requires c.node.PreflightValidate? || c.node.ValidateRemediation? || c.node.PrepareComplexRemediation?
    requires Standing(site, c, r, start, files, reported) && c.s.working.Some?
    requires Took(c, Exec(env, c.node, c.s, x), TickMove(env, c, x))
    ensures Standing(site, TickMove(env, c, x), r, start,
      FilesAfter(env, site, c, Tick(x), r, files), ReportAfter(c, Tick(x), r, reported))
  {
    CheckIsQuiet(c.node);
    hide *;
    FilesStay(env, site, c, Tick(x), r, files, reported);
    CheckTakes(env, c.node, c.s, x);
    TookMeans(c, Exec(env, c.node, c.s, x), TickMove(env, c, x));
    StandsAfterCheck(site, c, TickMove(env, c, x), Exec(env, c.node, c.s, x).entries, r, start, files, reported);
  }

  lemma CheckIsQuiet(n: Node)
    requires n.PreflightValidate? || n.ValidateRemediation? || n.PrepareComplexRemediation?
    ensures !IsLane(n) && !n.HandleValidationFailure? && (n.PrepareComplexRemediation? || Judges(n))
  {
  }

  lemma HandleTakes(env: Env, s: State, x: Input)
    ensures var o := Exec(env, HandleValidationFailure, s, x); o.Done? && s.working.Some? ==>
      && o.entries == [RolledBack(s.working.value)] && o.state.working == s.working && o.state.route == s.route
      && o.state.rollback == Some(s.modified)
    ensures forall m :: m in Successors(HandleValidationFailure) ==> m.ClassifyFailure?
  {
    hide ErrorOfResult;
  }

  lemma FilesAfterHandle(env: Env, site: Site, c: Config, x: Input, r: string, files: Files, reported: seq<Path>)
    requires c.node.HandleValidationFailure? && Enabled(c, Tick(x)) && TickMove(env, c, x).s.rollback == Some(c.s.modified)
    ensures FilesAfter(env, site, c, Tick(x), r, files) ==
      if c.s.working == Some(r) then Restored(site, c.s.modified, files) else files
    ensures ReportAfter(c, Tick(x), r, reported) == reported
  {
    hide Enabled, TickMove, Restored;
  }

  lemma StandsAfterHandle(
    site: Site, c: Config, c': Config, r: string, start: Files, files: Files, files': Files, reported: seq<Path>)
    requires Standing(site, c, r, start, files, reported) && c.node.HandleValidationFailure? && c.s.working.Some?
    requires c'.log == c.log + [RolledBack(c.s.working.value)] && c'.node.ClassifyFailure?
    requires c'.s.working == c.s.working && c'.s.route == c.s.route
    requires files' == if c.s.working == Some(r) then Restored(site, c.s.modified, files) else files
    ensures Standing(site, c', r, start, files', reported)
  {
    TriesMore(c.log, RolledBack(c.s.working.value), r);
    RestoredIsRound(site, c.s.modified, c.s.route, start, Tries(c.log, r));
    hide Edited, Restored, Round, Rounds, Tries, Reported;
  }

  lemma HandleStands(
    env: Env, site: Site, c: Config, x: Input, r: string, start: Files, files: Files, reported: seq<Path>)
    requires c.node.HandleValidationFailure? && Standing(site, c, r, start, files, reported) && c.s.working.Some?
    requires Enabled(c, Tick(x)) && Took(c, Exec(env, c.node, c.s, x), TickMove(env, c, x))
    ensures Standing(site, TickMove(env, c, x), r, start,
      FilesAfter(env, site, c, Tick(x), r, files), ReportAfter(c, Tick(x), r, reported))
  {
    hide *;
    HandleTakes(env, c.s, x);
    TookMeans(c, Exec(env, c.node, c.s, x), TickMove(env, c, x));
    FilesAfterHandle(env, site, c, x, r, files, reported);
    StandsAfterHandle(site, c, TickMove(env, c, x), r, start, files, FilesAfter(env, site, c, Tick(x), r, files), reported);
  }

  lemma RestoredIsRound(site: Site, modified: seq<Path>, route: Option<RouteDecision>, start: Files, k: nat)
    ensures route.Some? && k > 0 && (site.mode.Live? ==> modified == Reported(site, route.value.strategy)) ==>
      var strategy := route.value.strategy;
      Restored(site, modified, Edited(site, strategy, Rounds(site, strategy, k - 1, start))) == Rounds(site, strategy, k, start)
  {
    hide Edited, R.RolledBack, R.RelativeRestorePaths, Reported;
  }

  lemma ClassifyTakes(env: Env, s: State, x: Input)
    ensures var o := Exec(env, ClassifyFailure, s, x);
      && o.Done? && o.entries == [] && o.state.working == s.working && o.state.route == s.route
    ensures forall m :: m in Successors(ClassifyFailure) ==> !Judges(m) && !m.PrepareComplexRemediation? && !m.ClassifyFailure?
  {
    hide CanRetry, RetryNode;
  }

  // A lane is retried only after a failed validation.
  lemma RetriedAfterValidation(env: Env, c: Config, x: Input)
    requires Inv(env, c) && c.node.ClassifyFailure? && IsLane(TickMove(env, c, x).node)
    ensures c.s.errors != [] && IsValidationCode(Last(c.s.errors).code)
  {
    InvIsSafe(env, c);
    ClassifyLands(env, c, x);
    RetryOfLane(env, c.s, c.log);
    hide Inv, TickMove, CanRetry, RetryNode, IsValidationCode;
  }

  lemma InvIsSafe(env: Env, c: Config)
    requires Inv(env, c) && c.node.ClassifyFailure?
    ensures Safe(env, c) && AtClassify(env, c.s, c.log)
  {
    hide Frame, Bounded, AtClassify;
  }

  lemma RetryOfLane(env: Env, s: State, log: seq<Entry>)
    requires AtClassify(env, s, log)
    ensures CanRetry(env, s) && IsLane(RetryNode(s).value) ==> s.errors != [] && IsValidationCode(Last(s.errors).code)
  {
    hide Active, Counted, DeliveryReady, Planned, Classify, Dirty;
  }

  lemma ClassifyStands(
    env: Env, site: Site, c: Config, x: Input, r: string, start: Files, files: Files, reported: seq<Path>)
    requires Inv(env, c) && c.node.ClassifyFailure? && Standing(site, c, r, start, files, reported)
    requires Took(c, Exec(env, c.node, c.s, x), TickMove(env, c, x))
    ensures Standing(site, TickMove(env, c, x), r, start,
      FilesAfter(env, site, c, Tick(x), r, files), ReportAfter(c, Tick(x), r, reported))
  {
    ClassifyTakes(env, c.s, x);
    if IsLane(TickMove(env, c, x).node) {
      RetriedAfterValidation(env, c, x);
    }
    assert c.log + [] == c.log;
    hide Inv, Enabled, Exec, TickMove, Edited, Rounds, Tries, Successors, IsValidationCode;
  }

  // Whether the repository at hand has no failed validation.
  predicate NothingFailed(s: State) {
    s.validations == [] || !LatestFailed(s)
  }

  // A validation code on top of the errors comes from a failed validation.
  lemma CodeMeansFailure(env: Env, c: Config)
    requires Inv(env, c) && c.node.ClassifyFailure? && c.s.errors != [] && IsValidationCode(Last(c.s.errors).code)
    ensures !NothingFailed(c.s)
  {
    InvIsSafe(env, c);
    hide Inv, Safe, Active, Counted, DeliveryReady, Planned, Dirty;
  }

  predicate IsGate(n: Node) {
    n.ReviewRemediationApproval? || n.ReviewDeliveryApproval?
  }

  // What a gate is asked about.
  ghost predicate Awaiting(env: Env, c: Config, stage: Stage) {
    if stage.RemediationStage? then AwaitingRemediation(env, c.s, c.log) else AwaitingDelivery(env, c.s, c.log)
  }

  lemma AwaitingMeans(env: Env, c: Config, stage: Stage)
    requires Awaiting(env, c, stage)
    ensures c.s.working.Some? && c.s.route.Some? && NothingFailed(c.s)
    ensures stage.RemediationStage? ==> !RanLane(c.log, c.s.working.value)
  {
    hide LogView, OwnedBy, RanLane, Unpublished, Counted;
  }

  lemma ReviewTakes(s: State, stage: Stage)
    ensures var o := Review(stage, s);
      && o.Done? && o.state.validations == s.validations && o.state.working == s.working && o.state.route == s.route
      && forall e :: e in o.entries ==> !e.LaneRun?
    ensures forall m :: m in Successors(GateOf(stage)) ==> !Judges(m)
    ensures stage.DeliveryStage? ==> forall m :: m in Successors(GateOf(stage)) ==> !IsLane(m) && !m.PrepareComplexRemediation?
  {
  }

  // A gate, executed or resumed.
  lemma GateStands(
    env: Env, site: Site, c: Config, stage: Stage, s: State, c': Config, r: string, start: Files, files: Files,
    reported: seq<Path>)
    requires Awaiting(env, c, stage) && Standing(site, c, r, start, files, reported) && Inv(env, c')
    requires s == c.s || exists d :: s == c.s.(feedback := Some(d))
    requires c'.s == Review(stage, s).state && c'.log == c.log + Review(stage, s).entries && c'.node in Successors(GateOf(stage))
    ensures Standing(site, c', r, start, files, reported)
  {
    AwaitingMeans(env, c, stage);
    ReviewTakes(s, stage);
    TriesConcat(c.log, Review(stage, s).entries, r);
    if c.s.working == Some(r) && stage.RemediationStage? {
      NotTried(c.log, r);
      NoRounds(site, c.s.route.value.strategy, start);
    }
    if c'.node.ClassifyFailure? && c'.s.errors != [] && IsValidationCode(Last(c'.s.errors).code) {
      CodeMeansFailure(env, c');
    }
    hide Inv, Review, Awaiting, Edited, Rounds, Tries, Successors, IsValidationCode, RanLane;
  }

  lemma AtGateNode(env: Env, c: Config)
    requires Inv(env, c)
    ensures c.node.ReviewRemediationApproval? ==> Awaiting(env, c, RemediationStage)
    ensures c.node.ReviewDeliveryApproval? ==> Awaiting(env, c, DeliveryStage)
  {
    hide Frame, AwaitingRemediation, AwaitingDelivery, Bounded;
  }

  lemma PausedAwaits(env: Env, c: Config)
    requires Inv(env, c) && Paused(c)
    ensures Awaiting(env, c, ResumeStage(c.s))
  {
    hide Frame, LogView, OwnedBy, Bounded, RanLane, Cleared, Decided, Unattempted, Counted, Unpublished, LatestPassed;
  }

  lemma AtPolicyNode(env: Env, c: Config)
    requires Inv(env, c) && c.node.ApplyPolicy?
    ensures c.s.working.Some? && c.s.route.Some? && !RanLane(c.log, c.s.working.value)
  {
    hide Frame, LogView, OwnedBy, Bounded, RanLane, Untouched, PolicyOpen;
  }

  lemma PolicyTakes(env: Env, s: State)
    requires s.working.Some?
    ensures var o := ApplyPolicyUpdate(env, s);
      o.Done? && o.state.working == s.working && o.state.route == s.route && forall e :: e in o.entries ==> !e.LaneRun?
    ensures forall m :: m in Successors(ApplyPolicy) ==> !Judges(m) && !m.ClassifyFailure?
  {
    hide EvaluatePolicy;
  }

  lemma PolicyStands(
    env: Env, site: Site, c: Config, x: Input, r: string, start: Files, files: Files, reported: seq<Path>)
    requires Inv(env, c) && c.node.ApplyPolicy? && Standing(site, c, r, start, files, reported)
    requires Took(c, ApplyPolicyUpdate(env, c.s), TickMove(env, c, x))
    ensures Standing(site, TickMove(env, c, x), r, start, files, reported)
  {
    AtPolicyNode(env, c);
    PolicyTakes(env, c.s);
    TriesConcat(c.log, ApplyPolicyUpdate(env, c.s).entries, r);
    if c.s.working == Some(r) {
      NotTried(c.log, r);
      NoRounds(site, c.s.route.value.strategy, start);
    }
    hide Inv, ApplyPolicyUpdate, TickMove, Edited, Rounds, Tries, Successors, IsValidationCode, RanLane;
  }

  // Nodes that neither begin an attempt nor judge one, nor lead to one that does.
  predicate Elsewhere(n: Node) {
    !IsLane(n) && !Judges(n) && !n.PrepareComplexRemediation? && !n.ClassifyFailure? && !n.ApplyPolicy? && !IsGate(n)
  }

  lemma ElsewhereLeads(n: Node)
    requires Elsewhere(n)
    ensures forall m :: m in Successors(n) ==>
      !IsLane(m) && !Judges(m) && !m.PrepareComplexRemediation? && (m.ClassifyFailure? ==> n.PublishRemediation?)
  {
  }

  lemma PublishTakes(s: State, x: Input)
    ensures var o := Publish(s, x); o.Done? ==> o.state.validations == s.validations || o.state.validations == []
  {
    hide Deliver, Without, FindTargetIndex, DeliveryErrorCode;
  }

  lemma PublishesPassed(env: Env, c: Config)
    requires Inv(env, c) && c.node.PublishRemediation?
    ensures NothingFailed(c.s)
  {
    hide Frame, LogView, OwnedBy, Bounded, Cleared, Counted;
  }

  lemma PublishIs(env: Env, s: State, x: Input)
    ensures Exec(env, PublishRemediation, s, x) == Publish(s, x)
  {
    hide Publish;
  }

  lemma NoLaneRecorded(n: Node, s: State, o: Outcome)
    requires Frames(n, s, o) && !IsLane(n)
    ensures o.Done? ==> forall e :: e in o.entries ==> !e.LaneRun?
  {
  }

  lemma ElsewhereStands(
    env: Env, site: Site, c: Config, x: Input, r: string, start: Files, files: Files, reported: seq<Path>)
    requires Inv(env, c) && Elsewhere(c.node) && Standing(site, c, r, start, files, reported) && Inv(env, TickMove(env, c, x))
    requires Took(c, Exec(env, c.node, c.s, x), TickMove(env, c, x))
    ensures Standing(site, TickMove(env, c, x), r, start, files, reported)
  {
    ElsewhereLeads(c.node);
    ExecFrames(env, c.node, c.s, x);
    NoLaneRecorded(c.node, c.s, Exec(env, c.node, c.s, x));
    TriesConcat(c.log, Exec(env, c.node, c.s, x).entries, r);
    var c' := TickMove(env, c, x);
    if c'.node.ClassifyFailure? && c'.s.errors != [] && IsValidationCode(Last(c'.s.errors).code) {
      CodeMeansFailure(env, c');
      PublishIs(env, c.s, x);
      PublishTakes(c.s, x);
      PublishesPassed(env, c);
      hide *;
      assert false;
    }
    hide Inv, Exec, TickMove, Edited, Rounds, Tries, Successors, IsValidationCode, Frames, Elsewhere;
  }

  /* ---------- Move by move ---------- */

  lemma FilesStay(env: Env, site: Site, c: Config, m: Move, r: string, files: Files, reported: seq<Path>)
    requires m.Resume? || !Enabled(c, m) || (!IsLane(c.node) && !c.node.HandleValidationFailure?)
    ensures FilesAfter(env, site, c, m, r, files) == files && ReportAfter(c, m, r, reported) == reported
  {
    hide Enabled, TickMove, Edited, Restored;
  }

  lemma WorkingAt(env: Env, c: Config)
    requires Inv(env, c) && (Judges(c.node) || c.node.PrepareComplexRemediation?)
    ensures c.s.working.Some?
  {
    hide Frame, LogView, OwnedBy, Bounded, Cleared, Counted, Dirty, RanLane;
  }

  lemma TickStands(
    env: Env, site: Site, c: Config, x: Input, r: string, start: Files, files: Files, reported: seq<Path>)
    requires Inv(env, c) && Inv(env, TickMove(env, c, x)) && Standing(site, c, r, start, files, reported)
    requires Enabled(c, Tick(x)) && TrueReport(site, c, Tick(x), r)
    ensures Standing(site, TickMove(env, c, x), r, start,
      FilesAfter(env, site, c, Tick(x), r, files), ReportAfter(c, Tick(x), r, reported))
  {
    TickTakes(env, c, x);
    ExecOfGates(env, c.node, c.s, x);
    hide Inv, Standing, Exec, TickMove, FilesAfter, ReportAfter, TrueReport, Enabled, Successors;
    if IsLane(c.node) {
      LaneStands(env, site, c, x, r, start, files, reported);
    } else if c.node.HandleValidationFailure? {
      WorkingAt(env, c);
      HandleStands(env, site, c, x, r, start, files, reported);
    } else if c.node.ClassifyFailure? {
      ClassifyStands(env, site, c, x, r, start, files, reported);
    } else if Judges(c.node) || c.node.PrepareComplexRemediation? {
      WorkingAt(env, c);
      CheckStands(env, site, c, x, r, start, files, reported);
    } else {
      FilesStay(env, site, c, Tick(x), r, files, reported);
      if IsGate(c.node) {
        AtGateNode(env, c);
        GateStands(env, site, c, if c.node.ReviewDeliveryApproval? then DeliveryStage else RemediationStage, c.s,
          TickMove(env, c, x), r, start, files, reported);
      } else if c.node.ApplyPolicy? {
        PolicyStands(env, site, c, x, r, start, files, reported);
      } else {
        ElsewhereStands(env, site, c, x, r, start, files, reported);
      }
    }
  }

  lemma ExecOfGates(env: Env, n: Node, s: State, x: Input)
    ensures n.ApplyPolicy? ==> Exec(env, n, s, x) == ApplyPolicyUpdate(env, s)
    ensures n.ReviewRemediationApproval? ==> Exec(env, n, s, x) == Review(RemediationStage, s)
    ensures n.ReviewDeliveryApproval? ==> Exec(env, n, s, x) == Review(DeliveryStage, s)
  {
    hide ApplyPolicyUpdate, Review;
  }

  lemma ResumeStands(
    env: Env, site: Site, c: Config, d: Decision, r: string, start: Files, files: Files, reported: seq<Path>)
    requires Inv(env, c) && Inv(env, ResumeMove(env, c, d)) && Standing(site, c, r, start, files, reported) && Paused(c)
    ensures Standing(site, ResumeMove(env, c, d), r, start, files, reported)
  {
    var stage, s := ResumeStage(c.s), c.s.(feedback := Some(d));
    var c' := ResumeMove(env, c, d);
    PausedAwaits(env, c);
    NoFaultIn(env, c');
    hide Inv, Standing, Paused, Follow, Review, Awaiting, ResumeStage, GateOf, Successors;
    FollowTakes(env, c.(armed := false), GateOf(stage), Review(stage, s));
    GateStands(env, site, c, stage, s, c', r, start, files, reported);
  }

  lemma StepStands(
    env: Env, site: Site, c: Config, m: Move, r: string, start: Files, files: Files, reported: seq<Path>)
    requires Inv(env, c) && Standing(site, c, r, start, files, reported) && TrueReport(site, c, m, r)
    ensures Standing(site, Step(env, c, m), r, start,
      FilesAfter(env, site, c, m, r, files), ReportAfter(c, m, r, reported))
  {
    StepKeeps(env, c, m);
    hide Inv, Standing, TickMove, ResumeMove, FilesAfter, ReportAfter, TrueReport, Paused, Runnable;
    if !Enabled(c, m) {
      FilesStay(env, site, c, m, r, files, reported);
    } else if m.Tick? {
      TickStands(env, site, c, m.input, r, start, files, reported);
    } else {
      FilesStay(env, site, c, m, r, files, reported);
      ResumeStands(env, site, c, m.decision, r, start, files, reported);
    }
  }

  lemma {:induction false} RunStands(
    env: Env, site: Site, c: Config, moves: seq<Move>, r: string, start: Files, files: Files, reported: seq<Path>)
    requires Inv(env, c) && Standing(site, c, r, start, files, reported) && TrueReports(env, site, c, moves, r)
    ensures Standing(site, RunFrom(env, c, moves), r, start,
      Played(env, site, c, moves, r, files), LatestReport(env, c, moves, r, reported))
    decreases |moves|
  {
    hide Step, Inv, Standing, FilesAfter, ReportAfter, TrueReport;
    if moves != [] {
      var m := moves[0];
      StepKeeps(env, c, m);
      StepStands(env, site, c, m, r, start, files, reported);
      RunStands(env, site, Step(env, c, m), moves[1..], r, start,
        FilesAfter(env, site, c, m, r, files), ReportAfter(c, m, r, reported));
    }
  }

  /** In every run, attempts come in rounds of a lane and its rollback: between two attempts the files
      are those the rounds so far left, and while an attempt is judged they are what its lane made of
      them, with its report in the state. */
  lemma AttemptsComeInRounds(env: Env, site: Site, moves: seq<Move>, r: string, start: Files)
    requires TrueReports(env, site, Start, moves, r)
    ensures Reachable(env, RunFrom(env, Start, moves))
    ensures Standing(site, RunFrom(env, Start, moves), r, start,
      Played(env, site, Start, moves, r, start), LatestReport(env, Start, moves, r, []))
  {
    StartHolds(env);
    assert Standing(site, Start, r, start, start, []);
    hide Standing, Inv, RunFrom, TrueReports, Played, LatestReport;
    RunStands(env, site, Start, moves, r, start, start, []);
  }

  /* ---------- When an attempt is undone ---------- */

  // In live mode: the POM was as HEAD has it, and the recipe changed no other file. In fixture mode:
  // the lane changed nothing.
  ghost predicate LeavesNoTrace(site: Site, strategy: Strategy, start: Files) {
    match site.mode
    case Fixture => Edited(site, strategy, start) == start
    case Live =>
      IsPomLane(strategy) ==>
        R.SameAt(site.repo.head, start, site.pom) && forall p :: p != site.pom ==> R.SameAt(site.recipe(start), start, p)
  }

  lemma PomPaths(site: Site)
    ensures R.RelativeRestorePaths(site.repo.given, [site.repo.given + site.pom]) == [site.pom]
  {
    var given, modified := site.repo.given, [site.repo.given + site.pom];
    assert modified[..0] == [] && (given + site.pom)[|given|..] == site.pom;
    assert R.RelativeRestorePaths(given, []) == [];
  }

  lemma RoundIs(site: Site, strategy: Strategy, files: Files)
    ensures Round(site, strategy, files) ==
      if site.mode.Live? && IsPomLane(strategy) then R.RolledBack(site.repo.head, site.recipe(files), [site.pom])
      else Edited(site, strategy, files)
  {
    PomPaths(site);
    assert R.RelativeRestorePaths(site.repo.given, []) == [];
    R.NothingToRestore(site.repo.head, Edited(site, strategy, files));
    hide R.RolledBack, R.RelativeRestorePaths;
  }

  lemma LiveRoundExactly(site: Site, strategy: Strategy, start: Files)
    requires site.mode.Live? && IsPomLane(strategy)
    ensures Round(site, strategy, start) == start <==> LeavesNoTrace(site, strategy, start)
  {
    var edited := site.recipe(start);
    var final := R.RolledBack(site.repo.head, edited, [site.pom]);
    RoundIs(site, strategy, start);
    R.SameEverywhere(final, start);
    forall p
      ensures R.SameAt(final, start, p) <==> if p == site.pom then R.SameAt(site.repo.head, start, p) else R.SameAt(edited, start, p)
    {
      R.RolledBackAt(site.repo.head, edited, [site.pom], p);
    }
    hide R.RolledBack, Round;
  }

  /** A failed attempt is undone exactly when it leaves no trace. */
  lemma RoundExactly(site: Site, strategy: Strategy, start: Files)
    ensures Round(site, strategy, start) == start <==> LeavesNoTrace(site, strategy, start)
  {
    if site.mode.Live? && IsPomLane(strategy) {
      LiveRoundExactly(site, strategy, start);
    } else {
      RoundIs(site, strategy, start);
    }
    hide Round;
  }

  lemma {:induction false} RoundsStay(site: Site, strategy: Strategy, k: nat, start: Files)
    requires Round(site, strategy, start) == start
    ensures Rounds(site, strategy, k, start) == start
  {
    hide Round;
    if k > 0 {
      RoundsStay(site, strategy, k - 1, start);
    }
  }

  lemma FewRounds(site: Site, strategy: Strategy, files: Files)
    ensures Rounds(site, strategy, 0, files) == files
    ensures Rounds(site, strategy, 1, files) == Round(site, strategy, files)
  {
    assert Rounds(site, strategy, 0, files) == files;
    hide Round;
  }

  /* ---------- Over whole runs ---------- */

  lemma {:induction false} FixtureReportsAnything(env: Env, site: Site, c: Config, moves: seq<Move>, r: string)
    requires site.mode.Fixture?
    ensures TrueReports(env, site, c, moves, r)
    decreases |moves|
  {
    hide Step;
    if moves != [] {
      FixtureReportsAnything(env, site, Step(env, c, moves[0]), moves[1..], r);
    }
  }

  lemma JudgedReport(site: Site, c: Config, r: string, start: Files, files: Files, reported: seq<Path>)
    requires Standing(site, c, r, start, files, reported) && c.s.working == Some(r) && Judges(c.node)
    ensures c.s.modified == reported
  {
    hide Edited, Rounds, Tries;
  }

  /** In every run, the rollback that follows a failed validation is given exactly the files the latest
      lane execution for the repository reported. */
  lemma RollbackHoldsReport(env: Env, moves: seq<Move>, x: Input)
    requires RunFrom(env, Start, moves).node.HandleValidationFailure?
    ensures var c := RunFrom(env, Start, moves);
      && c.s.working.Some?
      && TickMove(env, c, x).s.rollback == Some(LatestReport(env, Start, moves, c.s.working.value, []))
  {
    var c := RunFrom(env, Start, moves);
    var site := Site(Fixture, R.Repo([], [], map[]), [], Unedited(), [], text => text, (files: Files) => files);
    RunIsReached(env, moves);
    hide *;
    HandlesWorking(env, c);
    var r := c.s.working.value;
    FixtureReportsAnything(env, site, Start, moves, r);
    AttemptsComeInRounds(env, site, moves, r, map[]);
    JudgesHandling(c);
    JudgedReport(site, c, r, map[], Played(env, site, Start, moves, r, map[]), LatestReport(env, Start, moves, r, []));
    HandlePlans(env, c, x);
  }

  lemma RunIsReached(env: Env, moves: seq<Move>)
    ensures Reachable(env, RunFrom(env, Start, moves))
  {
    hide RunFrom;
  }

  lemma JudgesHandling(c: Config)
    ensures c.node.HandleValidationFailure? ==> Judges(c.node) && !BeforeIntake(c.node)
  {
  }

  lemma HandlesWorking(env: Env, c: Config)
    requires Reachable(env, c) && c.node.HandleValidationFailure?
    ensures Inv(env, c) && c.s.working.Some?
  {
    hide Reachable;
    ReachableHolds(env, c);
    WorkingAt(env, c);
    hide Inv;
  }

  lemma HandlePlans(env: Env, c: Config, x: Input)
    requires Inv(env, c) && c.node.HandleValidationFailure? && c.s.working.Some?
    ensures TickMove(env, c, x).s.rollback == Some(c.s.modified)
  {
    StepKeepsTick(env, c, x);
    TickTakes(env, c, x);
    HandleTakes(env, c.s, x);
    hide Inv, Exec, TickMove, Successors;
  }

  lemma StepKeepsTick(env: Env, c: Config, x: Input)
    requires Inv(env, c) && c.node.HandleValidationFailure?
    ensures Inv(env, TickMove(env, c, x))
  {
    NoFaultIn(env, c);
    StepKeeps(env, c, Tick(x));
    assert Enabled(c, Tick(x));
    hide Inv, TickMove;
  }

  /** Over whole runs: whenever a lane is about to run, for the first time or again, its workspace holds
      what the rounds so far made of the files the run found, the rollbacks being given what the state
      held. */
  lemma AttemptStartsFromRounds(env: Env, moves: seq<Move>, strategy: Strategy, site: Site, start: Files, r: string)
    requires Executes(RunFrom(env, Start, moves).node, strategy) && RunFrom(env, Start, moves).s.working == Some(r)
    requires TrueReports(env, site, Start, moves, r)
    ensures Played(env, site, Start, moves, r, start) == Rounds(site, strategy, Tries(RunFrom(env, Start, moves).log, r), start)
  {
    var c := RunFrom(env, Start, moves);
    AttemptsComeInRounds(env, site, moves, r, start);
    hide RunFrom, Played, LatestReport, TrueReports, Reachable, Executes, Standing;
    LaneIsRouted(env, c, strategy);
    StandsBetween(site, c, strategy, r, start, Played(env, site, Start, moves, r, start), LatestReport(env, Start, moves, r, []));
  }

  lemma StandsBetween(site: Site, c: Config, strategy: Strategy, r: string, start: Files, files: Files, reported: seq<Path>)
    requires Standing(site, c, r, start, files, reported) && c.s.working == Some(r) && Executes(c.node, strategy)
    requires c.s.route.Some? && c.s.route.value.strategy == strategy
    ensures files == Rounds(site, strategy, Tries(c.log, r), start)
  {
    hide Edited, Rounds, Tries;
  }

  lemma LaneIsRouted(env: Env, c: Config, strategy: Strategy)
    requires Reachable(env, c) && Executes(c.node, strategy)
    ensures c.s.working.Some? && c.s.route.Some? && c.s.route.value.strategy == strategy
  {
    hide Executes, Reachable;
    AtItsLane(env, c, strategy);
    hide Dirty, LogView, OwnedBy;
  }

  /** Over whole runs: the first retry finds the files the first attempt found exactly when that attempt
      leaves no trace, and then so does every later one. */
  lemma RetriesStartTheSameExactly(env: Env, moves: seq<Move>, strategy: Strategy, site: Site, start: Files, r: string)
    requires Executes(RunFrom(env, Start, moves).node, strategy) && RunFrom(env, Start, moves).s.working == Some(r)
    requires TrueReports(env, site, Start, moves, r)
    ensures var k := Tries(RunFrom(env, Start, moves).log, r); var files := Played(env, site, Start, moves, r, start);
      && (k == 0 ==> files == start)
      && (k == 1 ==> (files == start <==> LeavesNoTrace(site, strategy, start)))
      && (LeavesNoTrace(site, strategy, start) ==> files == start)
  {
    hide *;
    AttemptStartsFromRounds(env, moves, strategy, site, start, r);
    FewRounds(site, strategy, start);
    RoundExactly(site, strategy, start);
    if LeavesNoTrace(site, strategy, start) {
      RoundsStay(site, strategy, Tries(RunFrom(env, Start, moves).log, r), start);
    }
  }

  /** A live recipe that also edits the POM of a module leaves a trace: the rollback restores the
      reported POM only, here in a workspace that was as HEAD has it. */
  lemma ModuleEditIsNotUndone() returns (site: Site, start: Files)
    ensures site.mode.Live? && site.repo.head == start && site.repo.given == site.repo.root
    ensures Round(site, SimpleUpdate, start) != start
  {
    var pom: Path, mod: Path := ["pom.xml"], ["core", "pom.xml"];
    start := map[pom := "old", mod := "old"];
    var upgraded: Files := map[pom := "new", mod := "new"];
    site := Site(Live, R.Repo([], [], start), pom, Unedited(), [], text => text, (files: Files) => upgraded);
    LiveRoundExactly(site, SimpleUpdate, start);
    assert mod != pom && !R.SameAt(site.recipe(start), start, mod);
  }

  function Unedited(): R.Editor {
    R.Editor((t: R.Target, text: string) => text, (t: R.Target) => "", (p: Path, text: string) => text)
  }

  /** The fixture rollback restores nothing: a scaffold that edits a file leaves its trace, although
      every file was as HEAD has it. */
  lemma ScaffoldIsNotUndone() returns (site: Site, start: Files)
    ensures site.mode.Fixture? && site.repo.head == start && site.repo.given == site.repo.root
    ensures Round(site, ComplexRefactor, start) != start
  {
    var file: Path := ["App.java"];
    start := map[file := "old"];
    var target := R.Target(false, file);
    var editor := Unedited().(revise := (t: R.Target, text: string) => "new");
    site := Site(Fixture, R.Repo([], [], start), [], editor, [target], text => text, (files: Files) => files);
    assert "App.java" != "" && "App.java" != "." && "App.java" != "..";
    assert R.Plain(file) && R.Writable(start, file);
    R.OnePlanned(site.repo, editor, start, target);
    var edited := R.Scaffolded(site.repo, editor, start, [target]);
    assert edited[file] == "new";
    hide R.EditPlanned;
  }

  /* ---------- Retries of the fixture POM lanes ---------- */

  // The POM lane's rewrite: the plan applied to the parsed document. A plan that does not go through
  // raises before the POM is written.
  function ByPlan(read: string -> P.Document, write: P.Document -> string, plan: seq<P.Change>, text: string): string
    requires P.Valid(read(text))
  {
    match P.PlanApplied(read(text), plan)
    case Ok(doc) => write(doc)
    case Err(_) => text
  }

  lemma ByPlanIsIdempotent(read: string -> P.Document, write: P.Document -> string, plan: seq<P.Change>, text: string)
    requires (forall t :: P.Valid(read(t))) && forall doc :: P.Valid(doc) ==> read(write(doc)) == doc
    ensures ByPlan(read, write, plan, ByPlan(read, write, plan, text)) == ByPlan(read, write, plan, text)
  {
    hide P.PlanApplied;
    if P.PlanApplied(read(text), plan).Ok? {
      P.PlanIsIdempotent(read(text), plan);
    }
  }

  lemma {:induction false} FixtureRounds(site: Site, strategy: Strategy, k: nat, start: Files)
    requires site.mode.Fixture? && IsPomLane(strategy) && k > 0
    requires forall text :: site.rewritePom(site.rewritePom(text)) == site.rewritePom(text)
    ensures Rounds(site, strategy, k, start) == Edited(site, strategy, start)
  {
    FewRounds(site, strategy, start);
    if k > 1 {
      FixtureRounds(site, strategy, k - 1, start);
    }
  }

  /** In fixture mode nothing is rolled back, yet every retry of a POM lane finds, and leaves, the POM
      the first attempt left: the plan that went through goes through again and changes nothing. */
  lemma FixturePomRetriesAgree(
    env: Env, moves: seq<Move>, strategy: Strategy, site: Site, start: Files, r: string,
    read: string -> P.Document, write: P.Document -> string, plan: seq<P.Change>)
    requires Executes(RunFrom(env, Start, moves).node, strategy) && RunFrom(env, Start, moves).s.working == Some(r)
    requires site.mode.Fixture? && IsPomLane(strategy)
    requires (forall t :: P.Valid(read(t))) && forall doc :: P.Valid(doc) ==> read(write(doc)) == doc
    requires forall text :: site.rewritePom(text) == ByPlan(read, write, plan, text)
    ensures Tries(RunFrom(env, Start, moves).log, r) > 0 ==>
      var files := Played(env, site, Start, moves, r, start); var first := Edited(site, strategy, start);
      files == first && Edited(site, strategy, files) == first
  {
    FixtureReportsAnything(env, site, Start, moves, r);
    hide Executes, Played, Tries, ByPlan, RunFrom, TrueReports;
    AttemptStartsFromRounds(env, moves, strategy, site, start, r);
    forall text
      ensures site.rewritePom(site.rewritePom(text)) == site.rewritePom(text)
    {
      ByPlanIsIdempotent(read, write, plan, text);
    }
    if Tries(RunFrom(env, Start, moves).log, r) > 0 {
      FixtureRounds(site, strategy, Tries(RunFrom(env, Start, moves).log, r), start);
    }
  }

  /* ---------- One attempt, carried out ---------- */

  /** The lane and the rollback after it, done to the workspace. */
  method FailedAttempt(site: Site, strategy: Strategy, w: R.Workspace) returns (failure: Option<R.Failure>)
    requires w.repo == site.repo
    modifies w`files
    ensures failure.None? ==> w.files == Round(site, strategy, old(w.files))
    ensures failure.Some? ==>
      && site.mode.Fixture? && strategy.ComplexRefactor?
      && R.EditPlanned(site.repo, site.editor, old(w.files), site.targets) == R.Planned(w.files,
           R.EditPlanned(site.repo, site.editor, old(w.files), site.targets).written, failure)
  {
    RoundIs(site, strategy, w.files);
    PomPaths(site);
    hide Round;
    if IsPomLane(strategy) {
      if site.mode.Live? {
        w.files := site.recipe(w.files);
        w.Rollback([site.repo.given + site.pom]);
      } else if site.pom in w.files {
        w.files := w.files[site.pom := site.rewritePom(w.files[site.pom])];
      }
    } else if strategy.ComplexRefactor? && site.mode.Fixture? {
      var modified := w.MaterializeComplexScaffold(site.editor, site.targets);
      if modified.Err? {
        return Some(modified.error);
      }
    }
    return None;
  }
}
