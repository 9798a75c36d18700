/**
 From the tags intake was given to what is done to a repository: over whole runs, policy judges each
 repository by the tags of its target (nodes/intake.py, policy/engine.py, nodes/policy.py).
 */
module Tags {
  import opened Collections
  import opened Workflow
  import opened Changes
  import opened Trace
  import opened Invariant
  import opened Steps
  import opened Runs
  import opened Nodes

  /* ---------- What intake was told ---------- */

  // The targets of the context load, and the lookup's answers about them.
  datatype Intake = Intake(targets: seq<Target>, existing: seq<bool>)

  function Told(c: Config, m: Move, told: Intake): Intake {
    if !Enabled(c, m) || !m.Tick? then told
    else if c.node.LoadRepositoryContext? then told.(targets := m.input.targets)
    else if c.node.CheckRepositoryIdempotency? then told.(existing := m.input.existing)
    else told
  }

  function ToldFrom(env: Env, c: Config, moves: seq<Move>, told: Intake): Intake
    decreases |moves|
  {
    if moves == [] then told else ToldFrom(env, Step(env, c, moves[0]), moves[1..], Told(c, moves[0], told))
  }

  function IntakeOf(env: Env, moves: seq<Move>): Intake {
    ToldFrom(env, Start, moves, Intake([], []))
  }

  predicate Blocked(config: PolicyConfig, tags: set<string>) {
    exists t :: t in tags && t in config.blockedTags
  }

  predicate Watched(config: PolicyConfig, tags: set<string>) {
    exists t :: t in tags && t in config.approvalTags
  }

  // The decision is what policy says about these tags.
  predicate Fits(config: PolicyConfig, tags: set<string>, d: PolicyDecision) {
    && (d.allowed <==> !Blocked(config, tags))
    && (Watched(config, tags) ==> d.requiresApproval)
  }

  // Every recorded decision is about the tags of its repository's workspace.
  ghost predicate AllFit(config: PolicyConfig, workspaces: map<string, Workspace>, log: seq<Entry>) {
    forall r, d :: PolicyDecided(r, d) in log ==> r in workspaces && Fits(config, workspaces[r].tags, d)
  }

  ghost predicate Knows(env: Env, c: Config, told: Intake) {
    && (c.node.CheckRepositoryIdempotency? || !BeforeIntake(c.node) ==> c.s.targets == told.targets)
    && (!BeforeIntake(c.node) ==>
          && c.s.repoMap == WorkspacesOf(told.targets, told.existing, map[])
          && c.queue == PendingOf(told.targets, told.existing))
    && AllFit(env.policy, c.s.repoMap, c.log)
  }

  /* ---------- Node by node ---------- */

  // The policy evaluation of a repository with a workspace.
  lemma EvaluationFits(config: PolicyConfig, s: State)
    requires s.working.Some? && s.working.value in s.repoMap
    ensures Fits(config, s.repoMap[s.working.value].tags, EvaluatePolicy(config, s))
  {
    var tags := s.repoMap[s.working.value].tags;
    SharedTag(tags, config.blockedTags);
    SharedTag(tags, config.approvalTags);
    hide RouteReasons;
  }

  lemma PolicyRecords(env: Env, s: State, log: seq<Entry>)
    requires AllFit(env.policy, s.repoMap, log) && s.working.Some? && s.working.value in s.repoMap
    ensures var o := ApplyPolicyUpdate(env, s);
      && o.Done? && o.state.targets == s.targets && o.state.repoMap == s.repoMap
      && AllFit(env.policy, s.repoMap, log + o.entries)
  {
    EvaluationFits(env.policy, s);
    hide EvaluatePolicy, Fits;
  }

  /* ---------- Move by move ---------- */

  lemma LogKeepsFit(config: PolicyConfig, workspaces: map<string, Workspace>, log: seq<Entry>, entries: seq<Entry>)
    requires AllFit(config, workspaces, log) && forall e :: e in entries ==> !e.PolicyDecided?
    ensures AllFit(config, workspaces, log + entries)
  {
    hide Fits;
  }

  // What the invariant says about the repository at hand.
  lemma HeadHasWorkspace(env: Env, c: Config)
    requires Inv(env, c) && c.node.ApplyPolicy?
    ensures c.s.working.Some? && c.s.working.value in c.s.repoMap
  {
    hide QueueConserved, LogScope, Justified, LogView, OwnedBy, RanLane, Bounded, Blank;
  }

  lemma ExecKnows(env: Env, c: Config, x: Input)
    requires Inv(env, c) && !BeforeIntake(c.node) && AllFit(env.policy, c.s.repoMap, c.log)
    ensures var o := Exec(env, c.node, c.s, x);
      o.Done? ==>
        && o.state.targets == c.s.targets && o.state.repoMap == c.s.repoMap
        && AllFit(env.policy, c.s.repoMap, c.log + o.entries)
  {
    PolicyNode(env, c.node, c.s, x);
    ExecFrames(env, c.node, c.s, x);
    FramesMean(c.node, c.s, Exec(env, c.node, c.s, x));
    hide *;
    if c.node.ApplyPolicy? {
      HeadHasWorkspace(env, c);
      PolicyRecords(env, c.s, c.log);
    } else if Exec(env, c.node, c.s, x).Done? {
      LogKeepsFit(env.policy, c.s.repoMap, c.log, Exec(env, c.node, c.s, x).entries);
    }
  }

  lemma PolicyNode(env: Env, n: Node, s: State, x: Input)
    ensures n.ApplyPolicy? ==> Exec(env, n, s, x) == ApplyPolicyUpdate(env, s)
  {
    hide ApplyPolicyUpdate;
  }

  lemma FramesMean(n: Node, s: State, o: Outcome)
    requires Frames(n, s, o) && !BeforeIntake(n)
    ensures o.Done? ==>
      && o.state.targets == s.targets && o.state.repoMap == s.repoMap
      && (!n.ApplyPolicy? ==> forall e :: e in o.entries ==> !e.PolicyDecided?)
  {
  }

  lemma IntakeTakes(s: State, x: Input)
    ensures var o := LoadContext(s, x); o.Done? ==> o.state.targets == x.targets
    ensures var o := CheckIdempotency(s, x);
      && o.state.repoMap == WorkspacesOf(s.targets, x.existing, s.repoMap)
      && o.state.pending == PendingOf(s.targets, x.existing) && o.state.targets == s.targets && o.entries == []
  {
    hide WorkspacesOf, PendingOf, SkippedOf;
  }

  // Before intake is done, nothing is on the log and there is no workspace.
  lemma IntakeTick(env: Env, c: Config, x: Input, told: Intake)
    requires Inv(env, c) && BeforeIntake(c.node) && Knows(env, c, told) && Enabled(c, Tick(x))
    ensures Knows(env, TickMove(env, c, x), Told(c, Tick(x), told))
  {
    NothingYet(c);
    InvIsBlank(env, c);
    hide Inv, Blank, Enabled, Exec, Follow, Successors, Fits, WorkspacesOf, PendingOf, CheckIdempotency, LoadContext;
    IntakeTakes(c.s, x);
    IntakeEntries(env, c.node, c.s, x);
    IntakeSuccessors(c.node);
    FollowTakes(env, c.(steps := c.steps + 1), c.node, Exec(env, c.node, c.s, x));
  }

  lemma InvIsBlank(env: Env, c: Config)
    requires Inv(env, c) && BeforeIntake(c.node)
    ensures Blank(c)
  {
    hide Blank, Frame, AtNode, Bounded;
  }

  lemma NothingYet(c: Config)
    ensures Blank(c) ==> c.log == [] && c.s.repoMap == map[]
  {
  }

  lemma IntakeSuccessors(n: Node)
    requires BeforeIntake(n)
    ensures forall m :: m in Successors(n) ==>
      && (m.CheckRepositoryIdempotency? ==> n.LoadRepositoryContext?)
      && (!BeforeIntake(m) ==> n.CheckRepositoryIdempotency?)
  {
  }

  lemma IntakeEntries(env: Env, n: Node, s: State, x: Input)
    requires BeforeIntake(n)
    ensures Exec(env, n, s, x).Done? ==> Exec(env, n, s, x).entries == []
    ensures n.LoadRepositoryContext? ==> Exec(env, n, s, x) == LoadContext(s, x)
    ensures n.CheckRepositoryIdempotency? ==> Exec(env, n, s, x) == CheckIdempotency(s, x)
  {
    hide WorkspacesOf, PendingOf, SkippedOf;
  }

  lemma LaterTick(env: Env, c: Config, x: Input, told: Intake)
    requires Inv(env, c) && !BeforeIntake(c.node) && Knows(env, c, told)
    ensures Knows(env, TickMove(env, c, x), told)
  {
    hide Inv, Fits, AllFit, WorkspacesOf, PendingOf, Exec, Follow;
    ExecKnows(env, c, x);
    FollowTakes(env, c.(steps := c.steps + 1), c.node, Exec(env, c.node, c.s, x));
    NeverBack(c.node);
  }

  lemma NeverBack(n: Node)
    requires !BeforeIntake(n)
    ensures forall m :: m in Successors(n) ==> !BeforeIntake(m)
  {
  }

  lemma ResumeKnows(env: Env, c: Config, d: Decision, told: Intake)
    requires !BeforeIntake(c.node) && Knows(env, c, told)
    ensures Knows(env, ResumeMove(env, c, d), told)
  {
    var s, stage := c.s.(feedback := Some(d)), ResumeStage(c.s);
    GateFrames(GateOf(stage), s, stage);
    FramesMean(GateOf(stage), s, Review(stage, s));
    if Review(stage, s).Done? {
      LogKeepsFit(env.policy, c.s.repoMap, c.log, Review(stage, s).entries);
    }
    hide Fits, AllFit, WorkspacesOf, PendingOf, Review, Follow, ResumeStage, Frames;
    FollowTakes(env, c.(armed := false), GateOf(stage), Review(stage, s));
    NeverBack(GateOf(stage));
  }

  lemma StepKnows(env: Env, c: Config, m: Move, told: Intake)
    requires Inv(env, c) && Knows(env, c, told)
    ensures Knows(env, Step(env, c, m), Told(c, m, told))
  {
    PausedLater(c);
    ToldLater(c, m, told);
    hide Inv, Knows, TickMove, ResumeMove, Enabled, BeforeIntake, Told;
    if Enabled(c, m) {
      match m
      case Tick(x) =>
        if BeforeIntake(c.node) {
          IntakeTick(env, c, x, told);
        } else {
          LaterTick(env, c, x, told);
        }
      case Resume(d) =>
        ResumeKnows(env, c, d, told);
    }
  }

  lemma PausedLater(c: Config)
    ensures Paused(c) ==> !BeforeIntake(c.node)
  {
  }

  lemma ToldLater(c: Config, m: Move, told: Intake)
    ensures !Enabled(c, m) || m.Resume? || !BeforeIntake(c.node) ==> Told(c, m, told) == told
    ensures m.Resume? && Enabled(c, m) ==> Paused(c)
  {
  }

  lemma {:induction false} RunKnows(env: Env, c: Config, moves: seq<Move>, told: Intake)
    requires Inv(env, c) && Knows(env, c, told)
    ensures Knows(env, RunFrom(env, c, moves), ToldFrom(env, c, moves, told))
    decreases |moves|
  {
    hide Step, Inv, Knows, Told;
    if moves != [] {
      StepKeeps(env, c, moves[0]);
      StepKnows(env, c, moves[0], told);
      RunKnows(env, Step(env, c, moves[0]), moves[1..], Told(c, moves[0], told));
    }
  }

  lemma RunIsKnown(env: Env, moves: seq<Move>)
    ensures Knows(env, RunFrom(env, Start, moves), IntakeOf(env, moves))
    ensures Reachable(env, RunFrom(env, Start, moves))
  {
    StartHolds(env);
    assert Knows(env, Start, Intake([], []));
    hide Knows, Inv, RunFrom, ToldFrom;
    RunKnows(env, Start, moves, Intake([], []));
  }

  /* ---------- What policy sees ---------- */

  // This target stands for the repository: the last one of its name that intake queued.
  predicate StandsFor(told: Intake, i: nat, r: string) {
    LastQueued(told.targets, told.existing, i) && told.targets[i].repository == r
  }

  /** In every run, every repository is worked on with the tags of the target that stands for it. */
  lemma WorkspacesCarryTags(env: Env, moves: seq<Move>, i: nat)
    requires var c := RunFrom(env, Start, moves); var told := IntakeOf(env, moves);
      !BeforeIntake(c.node) && LastQueued(told.targets, told.existing, i)
    ensures var c := RunFrom(env, Start, moves); var t := IntakeOf(env, moves).targets[i];
      t.repository in c.s.repoMap && c.s.repoMap[t.repository] == Workspace(t.repository, t.tags)
  {
    var told := IntakeOf(env, moves);
    RunIsKnown(env, moves);
    WorkspaceCarriesTags(told.targets, told.existing, map[], i);
    hide RunFrom, ToldFrom, IntakeOf, WorkspacesOf, PendingOf, AllFit;
  }

  /** In every run, policy decides by the tags of the target that stands for the repository: it is let
      through exactly when none of them is blocked, and then approval is asked for exactly when the route
      or the configuration asks for it or one of them is watched. */
  lemma PolicySeesTags(env: Env, moves: seq<Move>, x: Input, i: nat)
    requires var c := RunFrom(env, Start, moves);
      c.node.ApplyPolicy? && c.s.working.Some? && StandsFor(IntakeOf(env, moves), i, c.s.working.value)
    ensures var c := RunFrom(env, Start, moves); var tags := IntakeOf(env, moves).targets[i].tags;
      var next := TickMove(env, c, x); var config := env.policy;
      && c.s.route.Some?
      && (var route := c.s.route.value;
          if Blocked(config, tags) then next.node.End? && !Paused(next) && next.s.status.Failed?
          else if
            || route.requiresApproval || Watched(config, tags)
            || (route.strategy.ComplexRefactor? && config.complexNeedsApproval)
            || (route.strategy.TransitiveOverride? && config.transitiveNeedsApproval)
          then next.node.ReviewRemediationApproval?
          else next.node == LaneOf(route.strategy))
  {
    var c := RunFrom(env, Start, moves);
    RunIsKnown(env, moves);
    hide *;
    PolicyHolds(env, c);
    StandsMeans(IntakeOf(env, moves), i, c.s.working.value);
    NotYet(c);
    WorkspacesCarryTags(env, moves, i);
    PolicyMeans(env.policy, c.s);
    PolicyLeads(env, c, x);
    TagsMean(env.policy, IntakeOf(env, moves).targets[i].tags);
  }

  function LaneOf(strategy: Strategy): Node {
    match strategy
    case SimpleUpdate => RemediateSimple
    case TransitiveOverride => RemediateTransitive
    case ComplexRefactor => PrepareComplexRemediation
    case UnknownRoute => End
  }

  lemma StandsMeans(told: Intake, i: nat, r: string)
    requires StandsFor(told, i, r)
    ensures LastQueued(told.targets, told.existing, i) && i < |told.targets| && told.targets[i].repository == r
  {
  }

  lemma TagsMean(config: PolicyConfig, tags: set<string>)
    ensures Blocked(config, tags) <==> !forall t :: t in tags ==> t !in config.blockedTags
    ensures Watched(config, tags) <==> exists t :: t in tags && t in config.approvalTags
  {
  }

  lemma NotYet(c: Config)
    requires c.node.ApplyPolicy?
    ensures !BeforeIntake(c.node)
  {
  }

  lemma PolicyHolds(env: Env, c: Config)
    requires Reachable(env, c) && c.node.ApplyPolicy?
    ensures c.fault.None? && c.s.working.Some? && c.s.working.value in c.s.repoMap
    ensures c.s.route.Some? && c.s.requiresApproval == c.s.route.value.requiresApproval && c.s.policyDecisions == []
  {
    hide Reachable;
    HoldsAt(env, c);
    hide QueueConserved, LogScope, Justified, LogView, OwnedBy, RanLane, Unattempted;
  }

  lemma PolicyGoes(env: Env, s: State)
    requires s.route.Some? && s.policyDecisions == []
    ensures var d := EvaluatePolicy(env.policy, s); var o := ApplyPolicyUpdate(env, s);
      && o.Done?
      && SelectPostPolicy(o.state) ==
           (if !d.allowed then Goto(End)
            else if d.requiresApproval then Goto(ReviewRemediationApproval)
            else Goto(LaneOf(s.route.value.strategy)))
      && (!d.allowed ==> o.state.status.Failed?)
  {
    hide EvaluatePolicy;
  }

  lemma PolicyEdges(env: Env, s: State, x: Input, strategy: Strategy)
    ensures Exec(env, ApplyPolicy, s, x) == ApplyPolicyUpdate(env, s)
    ensures forall t :: Route(env, ApplyPolicy, t) == SelectPostPolicy(t)
    ensures End in Successors(ApplyPolicy) && ReviewRemediationApproval in Successors(ApplyPolicy)
    ensures LaneOf(strategy) in Successors(ApplyPolicy) && !BeforeIntake(ApplyPolicy)
  {
    hide ApplyPolicyUpdate, SelectPostPolicy;
  }

  lemma LandsAt(c: Config, n: Node, o: Outcome)
    requires o.Done?
    ensures Landing(c, n, o).node == n && Landing(c, n, o).s == o.state
    ensures n.End? && o.state.status.Failed? ==> !Paused(Landing(c, n, o))
  {
  }

  // The edge the policy node takes.
  lemma PolicyLeads(env: Env, c: Config, x: Input)
    requires c.node.ApplyPolicy? && c.fault.None? && c.s.route.Some? && c.s.policyDecisions == []
    ensures var d := EvaluatePolicy(env.policy, c.s); var next := TickMove(env, c, x);
      if !d.allowed then next.node.End? && !Paused(next) && next.s.status.Failed?
      else if d.requiresApproval then next.node.ReviewRemediationApproval?
      else next.node == LaneOf(c.s.route.value.strategy)
  {
    hide *;
    var d, strategy := EvaluatePolicy(env.policy, c.s), c.s.route.value.strategy;
    var n := if !d.allowed then End else if d.requiresApproval then ReviewRemediationApproval else LaneOf(strategy);
    PolicyGoes(env, c.s);
    PolicyEdges(env, c.s, x, strategy);
    Lands(env, c, x, n);
    LandsAt(c, n, ApplyPolicyUpdate(env, c.s));
  }

  /* ---------- What happens to tagged repositories ---------- */

  lemma DecisionLogged(log: seq<Entry>, r: string)
    requires PolicyOf(log, r).Some?
    ensures PolicyDecided(r, PolicyOf(log, r).value) in log
    decreases |log|
  {
    if Last(log) != PolicyDecided(r, PolicyOf(log, r).value) {
      DecisionLogged(log[..|log| - 1], r);
    }
  }

  // What may not be done to a repository before policy let it through.
  predicate Touches(e: Entry) {
    || e.LanePlanned? || e.LaneRun? || e.PublishRun? || e.BranchPublished? || e.PullRequestOpened? || e.JiraCompleted?
    || e.DryRunSkipped?
  }

  lemma TouchedIsPermitted(env: Env, log: seq<Entry>, e: Entry)
    requires Allowed(env, log, e) && (e.LanePlanned? || e.LaneRun? || e.PublishRun? || e.DryRunSkipped?)
    ensures Permitted(log, e.repo)
  {
    hide Permitted, Dirty, RanLane;
  }

  lemma EffectFollowsRun(env: Env, log: seq<Entry>, e: Entry)
    requires Allowed(env, log, e) && (e.BranchPublished? || e.PullRequestOpened? || e.JiraCompleted?)
    ensures PublishRun(e.repo) in log
  {
    hide Permitted, Dirty, RanLane, PolicyOf, OpenedPullRequest;
  }

  // Permission rests on a recorded decision and, where that asks for approval, on a grant.
  lemma PermittedMeans(log: seq<Entry>, r: string) returns (d: PolicyDecision)
    requires Permitted(log, r)
    ensures PolicyDecided(r, d) in log && d.allowed
    ensures d.requiresApproval ==> Granted(r, RemediationStage) in log
  {
    DecisionLogged(log, r);
    d := PolicyOf(log, r).value;
    hide PolicyOf;
  }

  // The entry that permission is recorded for, at or before this one.
  lemma TouchedAt(env: Env, log: seq<Entry>, k: nat) returns (j: nat)
    requires Justified(env, log) && k < |log| && Touches(log[k])
    ensures j <= k && Permitted(log[..j], log[k].repo)
  {
    assert Allowed(env, log[..k], log[k]);
    j := k;
    hide Allowed, Permitted, Justified;
    if log[k].BranchPublished? || log[k].PullRequestOpened? || log[k].JiraCompleted? {
      EffectFollowsRun(env, log[..k], log[k]);
      j := IndexIn(log, k, PublishRun(log[k].repo));
      AllowedAt(env, log, j);
    }
    TouchedIsPermitted(env, log[..j], log[j]);
  }

  lemma AllowedAt(env: Env, log: seq<Entry>, j: nat)
    requires Justified(env, log) && j < |log|
    ensures Allowed(env, log[..j], log[j])
  {
    hide Allowed;
  }

  lemma InFront(log: seq<Entry>, j: nat, k: nat, e: Entry)
    requires j <= k <= |log| && e in log[..j]
    ensures e in log[..k] && e in log
  {
    var i :| 0 <= i < j && log[..j][i] == e;
    assert log[..k][i] == e;
  }

  lemma FitsAt(config: PolicyConfig, workspaces: map<string, Workspace>, log: seq<Entry>, r: string, d: PolicyDecision)
    requires AllFit(config, workspaces, log) && PolicyDecided(r, d) in log
    ensures r in workspaces && Fits(config, workspaces[r].tags, d)
  {
    hide Fits;
  }

  lemma KnowsMeans(env: Env, c: Config, told: Intake)
    requires Knows(env, c, told)
    ensures AllFit(env.policy, c.s.repoMap, c.log)
  {
  }

  lemma LoggedIsLater(env: Env, c: Config)
    requires Reachable(env, c) && c.log != []
    ensures !BeforeIntake(c.node)
  {
    hide Reachable;
    if BeforeIntake(c.node) {
      BlankAt(env, c);
    }
    hide Blank;
  }

  /** In every run, no lane is planned or run and nothing is published or skipped for a repository whose
      target has a blocked tag; and none of that is done to one whose target has a watched tag before an
      approver granted remediation for it. */
  lemma TagsGovern(env: Env, moves: seq<Move>, k: nat, i: nat)
    requires var log := RunFrom(env, Start, moves).log;
      k < |log| && Touches(log[k]) && StandsFor(IntakeOf(env, moves), i, log[k].repo)
    ensures var log := RunFrom(env, Start, moves).log; var tags := IntakeOf(env, moves).targets[i].tags;
      && !Blocked(env.policy, tags)
      && (Watched(env.policy, tags) ==> Granted(log[k].repo, RemediationStage) in log[..k])
  {
    hide *;
    var c, told := RunFrom(env, Start, moves), IntakeOf(env, moves);
    var r := c.log[k].repo;
    RunIsKnown(env, moves);
    LoggedIsLater(env, c);
    StandsMeans(told, i, r);
    WorkspacesCarryTags(env, moves, i);
    KnowsMeans(env, c, told);
    SafeHistory(env, c);
    var j := TouchedAt(env, c.log, k);
    var d := PermittedMeans(c.log[..j], r);
    InFront(c.log, j, k, PolicyDecided(r, d));
    FitsAt(env.policy, c.s.repoMap, c.log, r, d);
    FitsMeans(env.policy, told.targets[i].tags, d);
    if Watched(env.policy, told.targets[i].tags) {
      InFront(c.log, j, k, Granted(r, RemediationStage));
    }
  }

  lemma FitsMeans(config: PolicyConfig, tags: set<string>, d: PolicyDecision)
    requires Fits(config, tags, d)
    ensures d.allowed <==> !Blocked(config, tags)
    ensures Watched(config, tags) ==> d.requiresApproval
  {
  }

  /** A target stands for every repository a run works on. */
  lemma SomeTargetStands(env: Env, moves: seq<Move>) returns (i: nat)
    requires var c := RunFrom(env, Start, moves); !BeforeIntake(c.node) && !c.node.End? && !c.node.DetectMavenProfile?
    ensures var c := RunFrom(env, Start, moves); c.s.working.Some? && StandsFor(IntakeOf(env, moves), i, c.s.working.value)
  {
    var c, told := RunFrom(env, Start, moves), IntakeOf(env, moves);
    RunIsKnown(env, moves);
    QueueConservation(env, c);
    assert c.queue == PendingOf(told.targets, told.existing);
    hide *;
    var r := c.s.working.value;
    HeadOfQueue(c.s.completed, c.s.pending, c.queue);
    i := QueuedTarget(told.targets, told.existing, r);
    StandsIs(told, i, r);
  }

  lemma HeadOfQueue(completed: seq<string>, pending: seq<string>, queue: seq<string>)
    requires completed + Distinct(pending) == Distinct(queue) && pending != []
    ensures pending[0] in queue
  {
    assert (completed + Distinct(pending))[|completed|] == pending[0];
  }

  lemma StandsIs(told: Intake, i: nat, r: string)
    requires LastQueued(told.targets, told.existing, i) && told.targets[i].repository == r
    ensures StandsFor(told, i, r)
  {
  }
}
