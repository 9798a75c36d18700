/**
 From what the adapters answered about a repository to what is done to it: over whole runs, the verdicts
 decide the lane, and the validation decides delivery or retry (nodes/, graph/builder.py).
 */
module Answers {
  import opened Collections
  import opened Verdicts
  import opened Workflow
  import opened Changes
  import opened Invariant
  import opened Steps
  import opened Runs
  import opened Failures
  import opened Tags

  // The latest answer of each adapter about a repository.
  datatype Heard = Heard(
    advisory: Option<VerificationStatus>, maven: Option<MavenVerification>, preflight: Option<bool>,
    result: Option<ValidationResult>)

  // What is known about r after this node has executed on it.
  function Learned(n: Node, x: Input, r: string, h: Heard): Heard {
    match n
    case VerifyAdvisory => h.(advisory := Some(x.advisory))
    case VerifyMavenTarget => h.(maven := Some(x.maven))
    case PreflightValidate => h.(preflight := Some(x.preflight))
    case ValidateRemediation => h.(result := Some(ValidationResult(r, x.validationStatus, x.checks, x.unresolvedSummary)))
    case _ => h
  }

  function Hears(c: Config, m: Move, r: string, h: Heard): Heard {
    if WorksOn(c, m, r) then Learned(c.node, m.input, r, h) else h
  }

  function HeardFrom(env: Env, c: Config, moves: seq<Move>, r: string, h: Heard): Heard
    decreases |moves|
  {
    if moves == [] then h else HeardFrom(env, Step(env, c, moves[0]), moves[1..], r, Hears(c, moves[0], r, h))
  }

  const Nothing: Heard := Heard(None, None, None, None)

  function HeardOf(env: Env, moves: seq<Move>, r: string): Heard {
    HeardFrom(env, Start, moves, r, Nothing)
  }

  // What the state holds about the repository at hand is what was heard.
  predicate Recalls(n: Node, s: State, r: string, h: Heard) {
    s.working == Some(r) ==>
      && (n.VerifyMavenTarget? || s.maven.Some? ==> h.advisory.Some? && s.advisory == h.advisory)
      && (s.maven.Some? ==> s.maven == h.maven)
      && (s.preflight.Some? ==> s.preflight == h.preflight)
      && (s.validations != [] ==> h.result == Some(Last(s.validations)))
  }

  /* ---------- Move by move ---------- */

  // What the nodes that ask an adapter record.
  predicate Records(n: Node, s: State, x: Input, o: Outcome) {
    o.Done? ==>
      && (n.VerifyAdvisory? ==> o.state.advisory == Some(x.advisory))
      && (n.VerifyMavenTarget? ==> o.state.maven == Some(x.maven))
      && (n.PreflightValidate? ==> o.state.preflight == Some(x.preflight))
      && (n.ValidateRemediation? ==>
            && s.working.Some?
            && o.state.validations ==
                 s.validations + [ValidationResult(s.working.value, x.validationStatus, x.checks, x.unresolvedSummary)])
  }

  lemma ExecRecords(env: Env, n: Node, s: State, x: Input)
    ensures Records(n, s, x, Exec(env, n, s, x))
  {
    hide Bootstrap, Probe, Ingest, LoadContext, CheckIdempotency, DetectProfile, ChooseRoute, ApplyPolicyUpdate, Review,
      PrepareDelivery, PomLane, PrepareComplex, ExecuteScaffold, HandleFailure, ClassifyUpdate, EscalateUpdate, Publish,
      SkipPublish;
  }

  // The repository at hand is taken up with nothing known about it.
  lemma TakenUpFresh(env: Env, c: Config)
    requires Inv(env, c)
    ensures c.node.DetectMavenProfile? ==> c.s.maven.None? && c.s.preflight.None? && c.s.validations == []
    ensures IsLane(c.node) || c.node.PrepareComplexRemediation? ==> c.s.working.Some?
  {
    hide Frame, LogView, OwnedBy, Bounded;
  }

  // A node, as far as it keeps and records what it should.
  lemma RecordsRecall(n: Node, s: State, x: Input, o: Outcome, m: Node, r: string, h: Heard, h': Heard)
    requires o.Done? && Frames(n, s, o) && Records(n, s, x, o) && Recalls(n, s, r, h)
    requires m.VerifyMavenTarget? ==> n.VerifyAdvisory?
    requires n.DetectMavenProfile? ==> s.maven.None? && s.preflight.None? && s.validations == []
    requires IsLane(n) || n.PrepareComplexRemediation? ==> s.working.Some?
    requires h' == if s.working == Some(r) then Learned(n, x, r, h) else h
    ensures Recalls(m, o.state, r, h')
  {
  }

  lemma TickRecalls(env: Env, c: Config, x: Input, r: string, h: Heard)
    requires Inv(env, c) && Enabled(c, Tick(x)) && Recalls(c.node, c.s, r, h)
    ensures var c' := TickMove(env, c, x); Recalls(c'.node, c'.s, r, Hears(c, Tick(x), r, h))
  {
    var o := Exec(env, c.node, c.s, x);
    StepKeeps(env, c, Tick(x));
    TickIsStep(env, c, x);
    hide *;
    TakenUpFresh(env, c);
    ExecFrames(env, c.node, c.s, x);
    ExecRecords(env, c.node, c.s, x);
    TickGoes(env, c, x);
    HearsAt(c, x, r, h);
    RecordsRecall(c.node, c.s, x, o, TickMove(env, c, x).node, r, h, Hears(c, Tick(x), r, h));
  }

  lemma TickIsStep(env: Env, c: Config, x: Input)
    requires Enabled(c, Tick(x))
    ensures Step(env, c, Tick(x)) == TickMove(env, c, x)
  {
    hide TickMove;
  }

  lemma TickGoes(env: Env, c: Config, x: Input)
    requires Inv(env, TickMove(env, c, x))
    ensures var o := Exec(env, c.node, c.s, x); var c' := TickMove(env, c, x);
      o.Done? && c'.s == o.state && (c'.node.VerifyMavenTarget? ==> c.node.VerifyAdvisory?)
  {
    Faultless(env, TickMove(env, c, x));
    OnlyFromAdvisory(c.node);
    hide Exec, Inv, Route;
  }

  lemma Faultless(env: Env, c: Config)
    requires Inv(env, c)
    ensures c.fault.None?
  {
    hide Blank, Frame, AtNode, Bounded;
  }

  lemma OnlyFromAdvisory(n: Node)
    ensures VerifyMavenTarget in Successors(n) ==> n.VerifyAdvisory?
  {
  }

  lemma HearsAt(c: Config, x: Input, r: string, h: Heard)
    requires Enabled(c, Tick(x))
    ensures Hears(c, Tick(x), r, h) == if c.s.working == Some(r) then Learned(c.node, x, r, h) else h
  {
    hide Enabled, Learned;
  }

  lemma ResumeRecalls(env: Env, c: Config, d: Decision, r: string, h: Heard)
    requires Recalls(c.node, c.s, r, h)
    ensures var c' := ResumeMove(env, c, d); Recalls(c'.node, c'.s, r, h)
  {
    var s, stage := c.s.(feedback := Some(d)), ResumeStage(c.s);
    ReviewAlike(s, stage);
    OnlyFromAdvisory(GateOf(stage));
    hide Review, Follow, ResumeStage;
    FollowTakes(env, c.(armed := false), GateOf(stage), Review(stage, s));
  }

  lemma StepRecalls(env: Env, c: Config, m: Move, r: string, h: Heard)
    requires Inv(env, c) && Recalls(c.node, c.s, r, h)
    ensures var c' := Step(env, c, m); Recalls(c'.node, c'.s, r, Hears(c, m, r, h))
  {
    hide Inv, Recalls, TickMove, ResumeMove, Enabled;
    if Enabled(c, m) {
      match m
      case Tick(x) => TickRecalls(env, c, x, r, h);
      case Resume(d) => ResumeRecalls(env, c, d, r, h);
    }
  }

  lemma {:induction false} RunRecalls(env: Env, c: Config, moves: seq<Move>, r: string, h: Heard)
    requires Inv(env, c) && Recalls(c.node, c.s, r, h)
    ensures var c' := RunFrom(env, c, moves); Recalls(c'.node, c'.s, r, HeardFrom(env, c, moves, r, h))
    decreases |moves|
  {
    hide Step, Inv, Recalls, Hears;
    if moves != [] {
      StepKeeps(env, c, moves[0]);
      StepRecalls(env, c, moves[0], r, h);
      RunRecalls(env, Step(env, c, moves[0]), moves[1..], r, Hears(c, moves[0], r, h));
    }
  }

  /** In every run, the verdicts, the preflight outcome and the validation result in the state are the
      latest answers the adapters gave about the repository at hand. */
  lemma StateRecallsAnswers(env: Env, moves: seq<Move>, r: string)
    ensures Reachable(env, RunFrom(env, Start, moves))
    ensures var c := RunFrom(env, Start, moves); Recalls(c.node, c.s, r, HeardOf(env, moves, r))
  {
    StartHolds(env);
    assert Recalls(Start.node, Start.s, r, Nothing);
    hide Recalls, Inv, RunFrom, HeardFrom;
    RunRecalls(env, Start, moves, r, Nothing);
  }

  /* ---------- What the answers decide ---------- */

  predicate Trusted(h: Heard) {
    h.advisory == Some(Verified) && h.maven.Some? && h.maven.value.status.Verified?
  }

  // The strategy these answers call for.
  function Called(h: Heard): Strategy {
    if !Trusted(h) then UnknownRoute
    else if h.maven.value.highRisk then ComplexRefactor
    else if h.maven.value.transitive then TransitiveOverride
    else SimpleUpdate
  }

  lemma HeadAtHand(env: Env, c: Config)
    requires Reachable(env, c) && !BeforeIntake(c.node) && !c.node.End? && !c.node.DetectMavenProfile?
    ensures c.s.working.Some?
  {
    hide Reachable;
    QueueConservation(env, c);
  }

  // What is known about the repository at hand.
  function Known(env: Env, moves: seq<Move>, c: Config): Heard
    requires c.s.working.Some?
  {
    HeardOf(env, moves, c.s.working.value)
  }

  lemma RecallsMean(n: Node, s: State, r: string, h: Heard)
    requires s.working == Some(r) && Recalls(n, s, r, h)
    ensures s.maven.Some? ==>
      && h.maven == s.maven && h.advisory.Some? && h.advisory == s.advisory
      && (s.route == Some(BuildRouteDecision(s.advisory.value, s.maven.value)) ==>
            && s.route.value.strategy == Called(h)
            && (s.route.value.requiresApproval <==> Called(h).UnknownRoute? || Called(h).ComplexRefactor?))
    ensures s.validations != [] ==> h.result == Some(Last(s.validations))
  {
  }

  lemma RoutedMeans(s: State)
    requires Routed(s)
    ensures s.maven.Some? && s.advisory.Some? && s.route == Some(BuildRouteDecision(s.advisory.value, s.maven.value))
  {
    hide BuildRouteDecision;
  }

  predicate HasRoute(n: Node) {
    n.ApplyPolicy? || IsLane(n) || n.PrepareComplexRemediation? || PastLane(n)
  }

  lemma RoutedThere(env: Env, c: Config)
    requires Reachable(env, c) && HasRoute(c.node)
    ensures Routed(c.s) && !BeforeIntake(c.node) && !c.node.End? && !c.node.DetectMavenProfile?
  {
    hide Reachable, Routed;
    HoldsAt(env, c);
    hide Frame, LogView, OwnedBy, Bounded, BuildRouteDecision, Counted, Unpublished, ScaffoldPrepared;
  }

  // The route of the repository at hand, in terms of what was heard about it.
  lemma RouteIsCalled(env: Env, moves: seq<Move>)
    requires HasRoute(RunFrom(env, Start, moves).node)
    ensures var c := RunFrom(env, Start, moves);
      && Reachable(env, c) && c.s.working.Some? && c.s.route.Some?
      && var called := Called(Known(env, moves, c));
         && c.s.route.value.strategy == called
         && (c.s.route.value.requiresApproval <==> called.UnknownRoute? || called.ComplexRefactor?)
    ensures var c := RunFrom(env, Start, moves);
      c.s.validations != [] ==> Known(env, moves, c).result == Some(Last(c.s.validations))
  {
    hide *;
    var c := RunFrom(env, Start, moves);
    StateRecallsAnswers(env, moves, "");
    RoutedThere(env, c);
    HeadAtHand(env, c);
    var r := c.s.working.value;
    StateRecallsAnswers(env, moves, r);
    RoutedMeans(c.s);
    RecallsMean(c.node, c.s, r, HeardOf(env, moves, r));
    KnownIs(env, moves, c);
  }

  lemma KnownIs(env: Env, moves: seq<Move>, c: Config)
    requires c.s.working.Some?
    ensures Known(env, moves, c) == HeardOf(env, moves, c.s.working.value)
  {
  }

  /** In every run, whatever retries came between, a lane runs only when the latest answers about the
      repository trust both its advisory and its target, and it is the lane they call for. */
  lemma LaneFollowsAnswers(env: Env, moves: seq<Move>, strategy: Strategy)
    requires Executes(RunFrom(env, Start, moves).node, strategy)
    ensures var c := RunFrom(env, Start, moves);
      c.s.working.Some? && Trusted(Known(env, moves, c)) && strategy == Called(Known(env, moves, c))
  {
    var c := RunFrom(env, Start, moves);
    ExecutesHasRoute(c.node, strategy);
    hide *;
    RouteIsCalled(env, moves);
    LaneOfRoute(env, c, strategy);
    CalledIsTrusted(Known(env, moves, c));
  }

  lemma ExecutesHasRoute(n: Node, strategy: Strategy)
    requires Executes(n, strategy)
    ensures HasRoute(n) && !strategy.UnknownRoute?
  {
  }

  lemma LaneOfRoute(env: Env, c: Config, strategy: Strategy)
    requires Reachable(env, c) && Executes(c.node, strategy)
    ensures c.s.route.Some? && c.s.route.value.strategy == strategy
  {
    AtItsLane(env, c, strategy);
    hide Executes, Reachable, Active, LogView, OwnedBy;
  }

  lemma CalledIsTrusted(h: Heard)
    ensures !Called(h).UnknownRoute? <==> Trusted(h)
  {
    hide Trusted;
  }

  /** Nothing is validated, published or skipped for a repository unless the latest answers about it
      trust both its advisory and its target. */
  lemma OnlyTrustedGoesOn(env: Env, moves: seq<Move>)
    requires PastLane(RunFrom(env, Start, moves).node)
    ensures var c := RunFrom(env, Start, moves); c.s.working.Some? && Trusted(Known(env, moves, c))
  {
    var c := RunFrom(env, Start, moves);
    PastLaneHasRoute(c.node);
    hide *;
    RouteIsCalled(env, moves);
    OnlyTrustedIsPublished(env, c);
    StateRecallsAnswers(env, moves, c.s.working.value);
    KnownIs(env, moves, c);
    RecallsTrust(c.node, c.s, c.s.working.value, Known(env, moves, c));
  }

  lemma PastLaneHasRoute(n: Node)
    requires PastLane(n)
    ensures HasRoute(n)
  {
  }

  lemma RecallsTrust(n: Node, s: State, r: string, h: Heard)
    requires s.working == Some(r) && Recalls(n, s, r, h)
    requires s.advisory == Some(Verified) && s.maven.Some? && s.maven.value.status.Verified?
    ensures Trusted(h)
  {
  }

  /** In every run, the tags of its target and the answers about it decide what policy lets happen to a
      repository: a blocked tag ends it; an untrusted or high-risk one waits for approval, and so does one
      whose lane or tags the configuration has approved first; any other goes straight to its lane. */
  lemma PolicyFollowsAnswers(env: Env, moves: seq<Move>, x: Input, i: nat)
    requires var c := RunFrom(env, Start, moves);
      c.node.ApplyPolicy? && c.s.working.Some? && StandsFor(IntakeOf(env, moves), i, c.s.working.value)
    ensures var c := RunFrom(env, Start, moves); var tags := IntakeOf(env, moves).targets[i].tags;
      var next := TickMove(env, c, x); var called := Called(Known(env, moves, c));
      if Blocked(env.policy, tags) then next.node.End? && !Paused(next) && next.s.status.Failed?
      else if
        || called.UnknownRoute? || called.ComplexRefactor? || Watched(env.policy, tags)
        || (called.TransitiveOverride? && env.policy.transitiveNeedsApproval)
      then next.node.ReviewRemediationApproval?
      else next.node == if called.TransitiveOverride? then RemediateTransitive else RemediateSimple
  {
    var c := RunFrom(env, Start, moves);
    assert HasRoute(c.node);
    hide *;
    RouteIsCalled(env, moves);
    PolicySeesTags(env, moves, x, i);
    LaneOfIs(c.s.route.value.strategy);
  }

  lemma LaneOfIs(strategy: Strategy)
    ensures strategy.TransitiveOverride? ==> LaneOf(strategy) == RemediateTransitive
    ensures strategy.SimpleUpdate? ==> LaneOf(strategy) == RemediateSimple
  {
  }

  /** In every run, the validation decides what follows it: a failed one is handled; after any other
      nothing is published in a dry run, and otherwise delivery is approved first where policy asks for it. */
  lemma ValidationDecides(env: Env, c: Config, x: Input)
    requires Reachable(env, c) && c.node.ValidateRemediation?
    ensures TickMove(env, c, x).node ==
      if x.validationStatus == CheckFailed then HandleValidationFailure
      else if env.dryRun then SkipPublishForDryRun
      else if c.s.requiresDelivery then PrepareDeliveryApproval
      else PublishRemediation
  {
    ValidatesPlanned(env, c);
    hide Reachable;
  }

  lemma ValidatesPlanned(env: Env, c: Config)
    requires Reachable(env, c) && c.node.ValidateRemediation?
    ensures c.s.working.Some? && !HasApproved(c.s, DeliveryStage) && c.fault.None?
  {
    hide Reachable;
    HoldsAt(env, c);
    hide Frame, LogView, OwnedBy, Bounded, BuildRouteDecision, Counted, Unpublished, ScaffoldPrepared, HasApproved;
  }

  /** In every run, the latest validation of the repository decides its retry: its lane runs again if and
      only if all failed checks are test failures or transient scan failures, the first of them is not
      also a compile check (unless it is transient), and budget remains. */
  lemma RetryFollowsAnswers(env: Env, moves: seq<Move>, x: Input, y: Input)
    requires RunFrom(env, Start, moves).node.HandleValidationFailure?
    ensures var c := RunFrom(env, Start, moves);
      && c.s.working.Some? && Known(env, moves, c).result.Some?
      && var checks := Known(env, moves, c).result.value.checks;
         TickMove(env, TickMove(env, c, x), y).node ==
           if RecoverableChecks(checks)
             && (var first := checks[FirstFailed(checks)]; IsTransient(first) || !first.name.compile)
             && c.s.retryCount < RetryCap(env)
           then LaneToRetry(Called(Known(env, moves, c)))
           else Escalate
  {
    var c := RunFrom(env, Start, moves);
    HandlesPastLane(c.node);
    hide *;
    RouteIsCalled(env, moves);
    RetryScheduledExactly(env, c, x, y);
    LaneAgainIs(c.s);
  }

  lemma HandlesPastLane(n: Node)
    requires n.HandleValidationFailure?
    ensures HasRoute(n)
  {
  }

  lemma LaneAgainIs(s: State)
    requires s.route.Some?
    ensures LaneAgain(s) == LaneToRetry(s.route.value.strategy)
  {
  }
}
