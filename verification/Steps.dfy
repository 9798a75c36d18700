/**
 From nodes to moves: whatever the adapters answer and whatever the approver decides, a move from a
 configuration satisfying the invariant raises nothing, follows a declared edge, restores the
 invariant, and spends the step budget.

 Each node has a `Tick...` lemma for its execution: what the update keeps comes from `Preservation`,
 the edge from the router, and the measure drops because the next node has a lower rank, because a
 retry is paid for by the retry budget, or because a finished repository pays for the next one. The
 `Resume...` lemmas do the same for a paused run and the approver's decision. `StepKeeps` is about any
 move, and `ReachableHolds` about any run from the start.
 */
module Steps {
  import opened Collections
  import opened Verdicts
  import opened Workflow
  import opened Trace
  import opened Invariant
  import opened Preservation

  // The invariant without the step budget, for configurations after intake.
  ghost predicate Safe(env: Env, c: Config) {
    && c.fault.None? && !BeforeIntake(c.node)
    && Frame(env, c.s, c.log, c.queue) && AtNode(env, c.node, c.s, c.log)
  }

  function Landing(c: Config, n: Node, o: Outcome): Config
    requires o.Done?
  {
    c.(node := n, s := o.state, log := c.log + o.entries, steps := c.steps + 1)
  }

  lemma Lands(env: Env, c: Config, x: Input, n: Node)
    requires !BeforeIntake(c.node)
    requires Exec(env, c.node, c.s, x).Done? && Route(env, c.node, Exec(env, c.node, c.s, x).state) == Goto(n)
    requires n in Successors(c.node)
    ensures TickMove(env, c, x) == Landing(c, n, Exec(env, c.node, c.s, x))
  {
  }

  // Moving to a lower rank within one repository spends the budget.
  lemma RankDrops(env: Env, c: Config, c': Config)
    requires c'.s.pending == c.s.pending && c'.s.retryCount == c.s.retryCount && !c.node.End?
    requires Rank(c') < Rank(c)
    ensures Measure(env, c') < Measure(env, c)
  {
  }

  // A retry goes back up, at the price of one unit of the retry budget.
  lemma RetrySpends(env: Env, c: Config, c': Config)
    requires c'.s.pending == c.s.pending && c'.s.retryCount == c.s.retryCount + 1 <= RetryCap(env)
    requires !c.node.End? && !c'.node.End? && Rank(c') < Rank(c) + 5
    ensures Measure(env, c') < Measure(env, c)
  {
  }

  // Finishing a repository pays for the next one.
  lemma FinishSpends(env: Env, c: Config, c': Config)
    requires c.s.pending != [] && c'.s.pending == Without(c.s.pending, c.s.pending[0])
    requires !c.node.End? && Rank(c) == 3
    requires if c'.s.pending == [] then c'.node.End? && c'.s.status.Completed? else c'.node.DetectMavenProfile? && c'.s.retryCount == 0
    ensures Measure(env, c') < Measure(env, c)
  {
    assert Distinct(c.s.pending) == [c.s.pending[0]] + Distinct(Without(c.s.pending[1..], c.s.pending[0]));
  }

  ghost predicate Progress(env: Env, c: Config, c': Config) {
    Safe(env, c') && c'.queue == c.queue && c'.steps == c.steps + 1 && Measure(env, c') < Measure(env, c)
  }

  /* ---------- One lemma a node ---------- */

  lemma TickDetect(env: Env, c: Config, x: Input)
    requires Safe(env, c) && c.node.DetectMavenProfile?
    ensures Progress(env, c, TickMove(env, c, x))
  {
    hide Frame, Active, AwaitingRemediation, AwaitingDelivery, DeliveryReady, EndsAs, DetectProfile;
    DetectNode(env, c.s, c.log, c.queue);
    Lands(env, c, x, VerifyAdvisory);
    assert c.log + [] == c.log;
    RankDrops(env, c, TickMove(env, c, x));
  }

  lemma TickAdvisory(env: Env, c: Config, x: Input)
    requires Safe(env, c) && c.node.VerifyAdvisory?
    ensures Progress(env, c, TickMove(env, c, x))
  {
    hide Frame, Active, AwaitingRemediation, AwaitingDelivery, DeliveryReady, EndsAs, LoadAdvisory;
    AdvisoryNode(env, c.s, c.log, c.queue, x);
    Lands(env, c, x, VerifyMavenTarget);
    assert c.log + [] == c.log;
    RankDrops(env, c, TickMove(env, c, x));
  }

  lemma TickMaven(env: Env, c: Config, x: Input)
    requires Safe(env, c) && c.node.VerifyMavenTarget?
    ensures Progress(env, c, TickMove(env, c, x))
  {
    hide Frame, Active, AwaitingRemediation, AwaitingDelivery, DeliveryReady, EndsAs, VerifyTarget;
    MavenNode(env, c.s, c.log, c.queue, x);
    Lands(env, c, x, SelectRoute);
    assert c.log + [] == c.log;
    RankDrops(env, c, TickMove(env, c, x));
  }

  lemma TickRoute(env: Env, c: Config, x: Input)
    requires Safe(env, c) && c.node.SelectRoute?
    ensures Progress(env, c, TickMove(env, c, x))
  {
    hide Frame, Active, AwaitingRemediation, AwaitingDelivery, DeliveryReady, EndsAs, ChooseRoute;
    RouteNode(env, c.s, c.log, c.queue);
    Lands(env, c, x, ApplyPolicy);
    assert c.log + [] == c.log;
    RankDrops(env, c, TickMove(env, c, x));
  }

  lemma PolicyStep(env: Env, c: Config, x: Input, d: PolicyDecision, n: Node)
    requires Safe(env, c) && c.node.ApplyPolicy? && d == EvaluatePolicy(env.policy, c.s)
    requires c.s.working == Some(c.s.pending[0]) && SameBudget(c.s, PolicyUpdate(c.s, d))
    requires SelectPostPolicy(PolicyUpdate(c.s, d)) == Goto(n) && n in Successors(ApplyPolicy)
    requires var log' := c.log + [PolicyDecided(c.s.pending[0], d)];
      Frame(env, PolicyUpdate(c.s, d), log', c.queue) && AtNode(env, n, PolicyUpdate(c.s, d), log')
    requires n.End? ==> !Pausing(PolicyUpdate(c.s, d))
    ensures Progress(env, c, TickMove(env, c, x))
  {
    hide Frame, Active, AtNode, PolicyUpdate, EvaluatePolicy, SelectPostPolicy;
    Lands(env, c, x, n);
    RankDrops(env, c, TickMove(env, c, x));
  }

  lemma TickPolicyBlocks(env: Env, c: Config, x: Input, d: PolicyDecision)
    requires Safe(env, c) && c.node.ApplyPolicy? && AtApplyPolicy(env, c.s, c.log)
    requires d == EvaluatePolicy(env.policy, c.s) && !d.allowed && d.requiresApproval
    ensures Progress(env, c, TickMove(env, c, x))
  {
    hide TickMove, LogView, OwnedBy, Frame, EvaluatePolicy;
    assert c.s.working == Some(c.s.pending[0]);
    PolicyRouting(c.s, d);
    hide Active, Planned, AtApplyPolicy, PolicyUpdate, SelectPostPolicy;
    PolicyActive(env, c.s, c.log, c.queue, d);
    PolicyBlocks(env, c.s, c.log, d);
    PolicyStep(env, c, x, d, End);
  }

  lemma TickPolicyAsks(env: Env, c: Config, x: Input, d: PolicyDecision)
    requires Safe(env, c) && c.node.ApplyPolicy? && AtApplyPolicy(env, c.s, c.log)
    requires d == EvaluatePolicy(env.policy, c.s) && d.allowed && d.requiresApproval
    requires d.requiresDelivery ==> c.s.route.value.strategy.ComplexRefactor?
    ensures Progress(env, c, TickMove(env, c, x))
  {
    hide *;
    PolicyReady(env, c);
    PolicyRouting(c.s, d);
    PolicyActive(env, c.s, c.log, c.queue, d);
    PolicyAsks(env, c.s, c.log, c.queue, d);
    GateFollows(env, PolicyUpdate(c.s, d), c.log + [PolicyDecided(c.s.pending[0], d)]);
    PolicyStep(env, c, x, d, ReviewRemediationApproval);
  }

  // What the policy step starts from.
  lemma PolicyReady(env: Env, c: Config)
    requires Safe(env, c) && AtApplyPolicy(env, c.s, c.log)
    ensures Frame(env, c.s, c.log, c.queue) && c.s.pending != [] && c.s.working == Some(c.s.pending[0])
    ensures c.s.pendingStage.None? && c.s.policyDecisions == [] && c.s.errors == [] && c.s.route.Some?
    ensures c.s.route.value.strategy.UnknownRoute? ==> c.s.route.value.requiresApproval
  {
    hide Frame, LogView, OwnedBy;
  }

  lemma GateFollows(env: Env, s: State, log: seq<Entry>)
    requires AtReviewRemediation(env, s, log)
    ensures ReviewRemediationApproval in Successors(ApplyPolicy) && AtNode(env, ReviewRemediationApproval, s, log)
  {
    hide AtReviewRemediation;
  }

  lemma TickPolicyPasses(env: Env, c: Config, x: Input, d: PolicyDecision)
    requires Safe(env, c) && c.node.ApplyPolicy? && AtApplyPolicy(env, c.s, c.log)
    requires d == EvaluatePolicy(env.policy, c.s) && d.allowed && !d.requiresApproval
    requires (d.requiresDelivery ==> c.s.route.value.strategy.ComplexRefactor?) && !c.s.route.value.requiresApproval
    ensures Progress(env, c, TickMove(env, c, x))
  {
    hide TickMove, LogView, OwnedBy, Frame, EvaluatePolicy;
    assert c.s.working == Some(c.s.pending[0]);
    PolicyRouting(c.s, d);
    hide Active, Planned, AtApplyPolicy, PolicyUpdate, SelectPostPolicy;
    PolicyActive(env, c.s, c.log, c.queue, d);
    PolicyPasses(env, c.s, c.log, c.queue, d);
    hide AtLane;
    match c.s.route.value.strategy
    case SimpleUpdate => PolicyStep(env, c, x, d, RemediateSimple);
    case TransitiveOverride => PolicyStep(env, c, x, d, RemediateTransitive);
    case ComplexRefactor => PolicyStep(env, c, x, d, PrepareComplexRemediation);
  }

  lemma TickPolicy(env: Env, c: Config, x: Input)
    requires Safe(env, c) && c.node.ApplyPolicy?
    ensures Progress(env, c, TickMove(env, c, x))
  {
    hide Frame, Active, TickMove, EvaluatePolicy;
    var d := EvaluatePolicy(env.policy, c.s);
    PolicyFacts(env.policy, c.s);
    if !d.allowed {
      TickPolicyBlocks(env, c, x, d);
    } else if d.requiresApproval {
      TickPolicyAsks(env, c, x, d);
    } else {
      TickPolicyPasses(env, c, x, d);
    }
  }

  lemma TickReviewRemediation(env: Env, c: Config, x: Input)
    requires Safe(env, c) && c.node.ReviewRemediationApproval?
    ensures Progress(env, c, TickMove(env, c, x))
  {
    hide Frame, Active, AwaitingRemediation, AwaitingDelivery, DeliveryReady, EndsAs, Review;
    assert c.s.(feedback := None) == c.s;
    ReviewUndecided(env, c.s, c.log, c.queue, RemediationStage, None);
    Lands(env, c, x, End);
    assert c.log + [] == c.log;
    RankDrops(env, c, TickMove(env, c, x));
  }

  lemma TickPrepareComplex(env: Env, c: Config, x: Input)
    requires Safe(env, c) && c.node.PrepareComplexRemediation?
    ensures Progress(env, c, TickMove(env, c, x))
  {
    hide Frame, Active, AwaitingRemediation, AwaitingDelivery, DeliveryReady, EndsAs, PrepareComplex;
    PrepareComplexNode(env, c.s, c.log, c.queue);
    Lands(env, c, x, ExecuteComplexScaffold);
    RankDrops(env, c, TickMove(env, c, x));
  }

  lemma TickScaffold(env: Env, c: Config, x: Input)
    requires Safe(env, c) && c.node.ExecuteComplexScaffold?
    ensures Progress(env, c, TickMove(env, c, x))
  {
    hide Frame, Active, AwaitingRemediation, AwaitingDelivery, DeliveryReady, EndsAs, ExecuteScaffold;
    ScaffoldNode(env, c.s, c.log, c.queue, x);
    Lands(env, c, x, ValidateRemediation);
    RankDrops(env, c, TickMove(env, c, x));
  }

  lemma TickSimple(env: Env, c: Config, x: Input)
    requires Safe(env, c) && c.node.RemediateSimple?
    ensures Progress(env, c, TickMove(env, c, x))
  {
    hide Frame, Active, AwaitingRemediation, AwaitingDelivery, DeliveryReady, EndsAs, PomLane;
    PomLaneNode(env, RemediateSimple, c.s, c.log, c.queue, SimpleUpdate, x);
    Lands(env, c, x, PreflightValidate);
    RankDrops(env, c, TickMove(env, c, x));
  }

  lemma TickTransitive(env: Env, c: Config, x: Input)
    requires Safe(env, c) && c.node.RemediateTransitive?
    ensures Progress(env, c, TickMove(env, c, x))
  {
    hide Frame, Active, AwaitingRemediation, AwaitingDelivery, DeliveryReady, EndsAs, PomLane;
    PomLaneNode(env, RemediateTransitive, c.s, c.log, c.queue, TransitiveOverride, x);
    Lands(env, c, x, PreflightValidate);
    RankDrops(env, c, TickMove(env, c, x));
  }

  lemma TickPreflight(env: Env, c: Config, x: Input)
    requires Safe(env, c) && c.node.PreflightValidate?
    ensures Progress(env, c, TickMove(env, c, x))
  {
    hide Frame, Active, AwaitingRemediation, AwaitingDelivery, DeliveryReady, EndsAs, Preflight;
    PreflightNode(env, c.s, c.log, c.queue, x);
    Lands(env, c, x, ValidateRemediation);
    assert c.log + [] == c.log;
    RankDrops(env, c, TickMove(env, c, x));
  }

  lemma ValidationLands(env: Env, c: Config, x: Input, n: Node)
    requires Safe(env, c) && c.node.ValidateRemediation?
    requires var o := Validate(c.s, x);
      && o.Done? && SameBudget(c.s, o.state) && SelectPostValidation(env, o.state) == Goto(n)
      && n in Successors(ValidateRemediation)
      && Frame(env, o.state, c.log + o.entries, c.queue) && AtNode(env, n, o.state, c.log + o.entries)
    ensures Progress(env, c, TickMove(env, c, x))
  {
    hide Frame, AtNode, Validate, SelectPostValidation;
    Lands(env, c, x, n);
    RankDrops(env, c, TickMove(env, c, x));
  }

  lemma TickValidate(env: Env, c: Config, x: Input)
    requires Safe(env, c) && c.node.ValidateRemediation?
    ensures Progress(env, c, TickMove(env, c, x))
  {
    hide Frame, Active, Planned, TickMove, DeliveryReady;
    assert AtValidate(env, c.s, c.log);
    ValidateNode(env, c.s, c.log, c.queue, x);
    var o := Validate(c.s, x);
    ValidationLeads(env, o.state, c.log + o.entries);
    hide Validate, AtValidate, AtHandleFailure, AtSkip, AtPrepareDelivery;
    if LatestFailed(o.state) {
      ValidationLands(env, c, x, HandleValidationFailure);
    } else if env.dryRun {
      ValidationLands(env, c, x, SkipPublishForDryRun);
    } else if o.state.requiresDelivery {
      ValidationLands(env, c, x, PrepareDeliveryApproval);
    } else {
      ValidationLands(env, c, x, PublishRemediation);
    }
  }

  lemma TickHandleFailure(env: Env, c: Config, x: Input)
    requires Safe(env, c) && c.node.HandleValidationFailure?
    ensures Progress(env, c, TickMove(env, c, x))
  {
    hide Frame, Active, AwaitingRemediation, AwaitingDelivery, DeliveryReady, EndsAs, HandleFailure;
    HandleFailureNode(env, c.s, c.log, c.queue);
    Lands(env, c, x, ClassifyFailure);
    RankDrops(env, c, TickMove(env, c, x));
  }

  lemma TickPrepareDelivery(env: Env, c: Config, x: Input)
    requires Safe(env, c) && c.node.PrepareDeliveryApproval?
    ensures Progress(env, c, TickMove(env, c, x))
  {
    hide Frame, Active, AwaitingRemediation, AwaitingDelivery, DeliveryReady, EndsAs, PrepareDelivery;
    PrepareDeliveryNode(env, c.s, c.log, c.queue);
    Lands(env, c, x, ReviewDeliveryApproval);
    assert c.log + [] == c.log;
    RankDrops(env, c, TickMove(env, c, x));
  }

  lemma TickReviewDelivery(env: Env, c: Config, x: Input)
    requires Safe(env, c) && c.node.ReviewDeliveryApproval?
    ensures Progress(env, c, TickMove(env, c, x))
  {
    hide Frame, Active, AwaitingRemediation, AwaitingDelivery, DeliveryReady, EndsAs, Review;
    assert c.s.(feedback := None) == c.s;
    ReviewUndecided(env, c.s, c.log, c.queue, DeliveryStage, None);
    Lands(env, c, x, End);
    assert c.log + [] == c.log;
    RankDrops(env, c, TickMove(env, c, x));
  }

  lemma TickFailedPublish(env: Env, c: Config, x: Input)
    requires Safe(env, c) && c.node.PublishRemediation? && c.s.pending != []
    requires Deliver(c.s, c.s.pending[0], x).failure.Some?
    ensures Progress(env, c, TickMove(env, c, x))
  {
    hide Frame, Active, DeliveryReady, AtClassify, Publish, SelectPostDelivery, Deliver;
    DeliveryFails(env, c.s, c.log, c.queue, x);
    Lands(env, c, x, ClassifyFailure);
    RankDrops(env, c, TickMove(env, c, x));
  }

  lemma TickFinishedPublish(env: Env, c: Config, x: Input)
    requires Safe(env, c) && c.node.PublishRemediation? && c.s.pending != []
    requires Deliver(c.s, c.s.pending[0], x).failure.None?
    ensures Progress(env, c, TickMove(env, c, x))
  {
    hide Frame, Active, DeliveryReady, Publish, SelectPostDelivery, Deliver, Without, Distinct;
    DeliverySucceeds(env, c.s, c.log, c.queue, x);
    Lands(env, c, x, if Publish(c.s, x).state.pending != [] then DetectMavenProfile else End);
    FinishSpends(env, c, TickMove(env, c, x));
  }

  lemma TickPublish(env: Env, c: Config, x: Input)
    requires Safe(env, c) && c.node.PublishRemediation?
    ensures Progress(env, c, TickMove(env, c, x))
  {
    hide Frame, LogView, OwnedBy, TickMove, Deliver;
    assert c.s.pending != [];
    if Deliver(c.s, c.s.pending[0], x).failure.Some? {
      TickFailedPublish(env, c, x);
    } else {
      TickFinishedPublish(env, c, x);
    }
  }

  lemma TickSkip(env: Env, c: Config, x: Input)
    requires Safe(env, c) && c.node.SkipPublishForDryRun?
    ensures Progress(env, c, TickMove(env, c, x))
  {
    hide Frame, Active, AwaitingRemediation, AwaitingDelivery, DeliveryReady, EndsAs, SkipPublish, SelectPostDelivery, Without, Distinct;
    SkipNode(env, c.s, c.log, c.queue);
    Lands(env, c, x, if SkipPublish(c.s).state.pending != [] then DetectMavenProfile else End);
    FinishSpends(env, c, TickMove(env, c, x));
  }

  predicate LatestFailedIn(s: State) {
    s.validations != [] && LatestFailed(s)
  }

  lemma RetryLands(env: Env, c: Config, x: Input, n: Node)
    requires Safe(env, c) && c.node.ClassifyFailure?
    requires n.PublishRemediation? || (n in Successors(ClassifyFailure) && !n.Escalate? && LatestFailedIn(c.s))
    requires var o := ClassifyUpdate(env, c.s);
      && o.Done? && o.entries == [] && SelectFailure(o.state) == Goto(n)
      && o.state.pending == c.s.pending && o.state.retryCount == c.s.retryCount + 1 <= RetryCap(env)
      && Frame(env, o.state, c.log, c.queue) && AtNode(env, n, o.state, c.log)
    ensures Progress(env, c, TickMove(env, c, x))
  {
    hide Frame, AtNode, ClassifyUpdate, SelectFailure;
    assert c.log + [] == c.log;
    Lands(env, c, x, n);
    RetrySpends(env, c, TickMove(env, c, x));
  }

  lemma TickDeliveryRetry(env: Env, c: Config, x: Input)
    requires Safe(env, c) && c.node.ClassifyFailure? && AtClassify(env, c.s, c.log) && CanRetry(env, c.s)
    requires IsDeliveryCode(Last(c.s.errors).code)
    ensures Progress(env, c, TickMove(env, c, x))
  {
    hide Frame, Active, DeliveryReady, ClassifyUpdate, SelectFailure, CanRetry, TickMove, AtClassify;
    DeliveryRetried(env, c.s, c.log, c.queue);
    RetryLands(env, c, x, PublishRemediation);
  }

  lemma TickLaneRetry(env: Env, c: Config, x: Input)
    requires Safe(env, c) && c.node.ClassifyFailure? && AtClassify(env, c.s, c.log) && CanRetry(env, c.s)
    requires !IsDeliveryCode(Last(c.s.errors).code)
    requires LatestFailedIn(c.s)
    ensures Progress(env, c, TickMove(env, c, x))
  {
    hide Frame, Active, Planned, ClassifyUpdate, SelectFailure, TickMove, AtClassify, LaneReady;
    LaneRetried(env, c.s, c.log, c.queue);
    RetryLands(env, c, x, RetryNode(c.s).value);
  }

  lemma TickClassify(env: Env, c: Config, x: Input)
    requires Safe(env, c) && c.node.ClassifyFailure?
    ensures Progress(env, c, TickMove(env, c, x))
  {
    hide Frame, Active, TickMove, ClassifyUpdate;
    if !CanRetry(env, c.s) {
      TickGivingUp(env, c, x);
    } else if IsDeliveryCode(Last(c.s.errors).code) {
      TickDeliveryRetry(env, c, x);
    } else {
      RetriedFailure(env, c.s, c.log);
      TickLaneRetry(env, c, x);
    }
  }

  lemma TickGivingUp(env: Env, c: Config, x: Input)
    requires Safe(env, c) && c.node.ClassifyFailure? && !CanRetry(env, c.s)
    ensures Progress(env, c, TickMove(env, c, x))
  {
    hide Frame, Active, AtClassify, AtEscalate, ClassifyUpdate, SelectFailure, CanRetry;
    EscalationFollows(env, c.s, c.log, c.queue);
    assert c.log + [] == c.log;
    Lands(env, c, x, Escalate);
    RankDrops(env, c, TickMove(env, c, x));
  }

  lemma TickEscalate(env: Env, c: Config, x: Input)
    requires Safe(env, c) && c.node.Escalate?
    ensures Progress(env, c, TickMove(env, c, x))
  {
    hide Frame, Active, AwaitingRemediation, AwaitingDelivery, DeliveryReady, EndsAs, EscalateUpdate;
    EscalateNode(env, c.s, c.log, c.queue);
    Lands(env, c, x, End);
    assert c.log + [] == c.log;
    RankDrops(env, c, TickMove(env, c, x));
  }

  /* ---------- Intake ---------- */

  lemma TickIntake(env: Env, c: Config, x: Input)
    requires Inv(env, c) && BeforeIntake(c.node) && !c.node.CheckRepositoryIdempotency?
    ensures Inv(env, TickMove(env, c, x))
  {
    hide LogView, OwnedBy, Justified;
    assert BeforeIntake(TickMove(env, c, x).node);
  }

  lemma {:induction false} WorkspacesCover(targets: seq<Target>, existing: seq<bool>, start: map<string, Workspace>, r: string)
    requires forall q :: q in start ==> start[q].name == q
    ensures var m := WorkspacesOf(targets, existing, start);
      (r in PendingOf(targets, existing) ==> r in m) && (r in m ==> m[r].name == r)
  {
    if targets != [] {
      WorkspacesCover(targets[..|targets| - 1], existing, start, r);
    }
  }

  lemma IdempotencyNode(env: Env, c: Config, x: Input)
    requires Blank(c) && c.node.CheckRepositoryIdempotency?
    ensures var s' := CheckIdempotency(c.s, x).state;
      && Frame(env, s', [], s'.pending) && s'.completed == [] && s'.retryCount == 0
      && (if s'.pending == [] then AtEnd(env, s', []) && s'.status.Completed? else AtDetect(env, s', []))
  {
    var s' := CheckIdempotency(c.s, x).state;
    forall r | r in s'.pending
      ensures r in s'.repoMap && s'.repoMap[r].name == r
    {
      WorkspacesCover(c.s.targets, x.existing, map[], r);
    }
    assert [] + Distinct(s'.pending) == Distinct(s'.pending);
    if s'.pending == [] {
      assert EndsAs(env, s', [], EndedCompleted);
    }
  }

  lemma IdempotencyTick(env: Env, c: Config, x: Input)
    requires c.node.CheckRepositoryIdempotency? && c.log == []
    ensures var s' := CheckIdempotency(c.s, x).state;
      TickMove(env, c, x) == c.(
        node := if s'.pending == [] then End else DetectMavenProfile, s := s', queue := s'.pending, steps := c.steps + 1)
  {
    hide PendingOf, SkippedOf, WorkspacesOf;
  }

  lemma TickIdempotency(env: Env, c: Config, x: Input)
    requires Inv(env, c) && c.node.CheckRepositoryIdempotency?
    ensures Inv(env, TickMove(env, c, x))
  {
    assert Blank(c);
    IdempotencyTick(env, c, x);
    hide TickMove, CheckIdempotency, Frame, AtDetect, AtEnd, Justified;
    IdempotencyNode(env, c, x);
  }

  /* ---------- Every execution of a node ---------- */

  lemma TickAfterIntake(env: Env, c: Config, x: Input)
    requires Safe(env, c) && Runnable(c)
    ensures Progress(env, c, TickMove(env, c, x))
  {
    hide TickMove, Frame, AtNode, Measure, Progress;
    match c.node
    case DetectMavenProfile => TickDetect(env, c, x);
    case VerifyAdvisory => TickAdvisory(env, c, x);
    case VerifyMavenTarget => TickMaven(env, c, x);
    case SelectRoute => TickRoute(env, c, x);
    case ApplyPolicy => TickPolicy(env, c, x);
    case ReviewRemediationApproval => TickReviewRemediation(env, c, x);
    case PrepareComplexRemediation => TickPrepareComplex(env, c, x);
    case ExecuteComplexScaffold => TickScaffold(env, c, x);
    case RemediateSimple => TickSimple(env, c, x);
    case RemediateTransitive => TickTransitive(env, c, x);
    case PreflightValidate => TickPreflight(env, c, x);
    case ValidateRemediation => TickValidate(env, c, x);
    case HandleValidationFailure => TickHandleFailure(env, c, x);
    case PrepareDeliveryApproval => TickPrepareDelivery(env, c, x);
    case ReviewDeliveryApproval => TickReviewDelivery(env, c, x);
    case PublishRemediation => TickPublish(env, c, x);
    case SkipPublishForDryRun => TickSkip(env, c, x);
    case ClassifyFailure => TickClassify(env, c, x);
    case Escalate => TickEscalate(env, c, x);
  }

  lemma TickKeeps(env: Env, c: Config, x: Input)
    requires Inv(env, c) && Runnable(c)
    ensures Inv(env, TickMove(env, c, x))
  {
    hide TickMove, Frame, AtNode, Measure, Blank;
    if c.node.CheckRepositoryIdempotency? {
      TickIdempotency(env, c, x);
    } else if BeforeIntake(c.node) {
      TickIntake(env, c, x);
    } else {
      TickAfterIntake(env, c, x);
    }
  }

  /* ---------- Resuming at a pause ---------- */

  // The stage a paused thread waits for is the one `resume` acts on.
  lemma PauseStage(env: Env, c: Config)
    requires Safe(env, c) && Paused(c)
    ensures if ResumeStage(c.s).RemediationStage? then AwaitingRemediation(env, c.s, c.log) else AwaitingDelivery(env, c.s, c.log)
    ensures Rank(c) >= if ResumeStage(c.s).RemediationStage? then 8 else 3
    ensures c.node.End? || AtGate(c.node)
  {
    hide Frame, LogView, OwnedBy;
  }

  // A move that does not climb keeps the step budget.
  lemma BudgetKept(env: Env, c: Config, c': Config)
    requires c'.s.pending == c.s.pending && c'.s.retryCount == c.s.retryCount
    requires !c.node.End? || Paused(c)
    requires (c'.node.End? && !Paused(c')) || Rank(c') <= Rank(c)
    ensures Measure(env, c') <= Measure(env, c)
  {
  }

  ghost predicate Continues(env: Env, c: Config, c': Config) {
    && Safe(env, c') && c'.queue == c.queue && c'.steps == c.steps && !c'.armed
    && Measure(env, c') <= Measure(env, c)
  }

  // The nodes a review can lead to: none ranks above the pause.
  predicate ResumeTarget(stage: Stage, n: Node, s: State) {
    if n.End? then !Pausing(s) || s.pendingStage == Some(stage)
    else if n.ClassifyFailure? then s.validations == [] || LatestPassed(s)
    else if stage.RemediationStage? then n.RemediateSimple? || n.RemediateTransitive? || n.PrepareComplexRemediation?
    else n.PublishRemediation?
  }

  lemma ResumeGoes(env: Env, c: Config, d: Decision, n: Node)
    requires var stage := ResumeStage(c.s); var o := Review(stage, c.s.(feedback := Some(d)));
      o.Done? && Route(env, GateOf(stage), o.state) == Goto(n) && n in Successors(GateOf(stage))
    ensures var o := Review(ResumeStage(c.s), c.s.(feedback := Some(d)));
      ResumeMove(env, c, d) == c.(armed := false, node := n, s := o.state, log := c.log + o.entries)
  {
    hide Review, Route, Successors;
  }

  // Where the gate node, left with this outcome, sends the run.
  lemma ResumeLands(env: Env, c: Config, d: Decision, n: Node)
    requires Safe(env, c) && Paused(c)
    requires var stage := ResumeStage(c.s); var o := Review(stage, c.s.(feedback := Some(d)));
      && o.Done? && SameBudget(c.s, o.state)
      && Route(env, GateOf(stage), o.state) == Goto(n) && n in Successors(GateOf(stage))
      && Frame(env, o.state, c.log + o.entries, c.queue) && AtNode(env, n, o.state, c.log + o.entries)
      && ResumeTarget(stage, n, o.state)
    ensures Continues(env, c, ResumeMove(env, c, d))
  {
    hide Frame, AtNode, AwaitingRemediation, AwaitingDelivery, Review, ResumeMove, Route, Successors;
    PauseStage(env, c);
    ResumeGoes(env, c, d, n);
    BudgetKept(env, c, ResumeMove(env, c, d));
  }

  // The thread is paused, waiting for a decision on this stage.
  predicate PausedFor(env: Env, c: Config, stage: Stage) {
    && stage == ResumeStage(c.s)
    && if stage.RemediationStage? then AwaitingRemediation(env, c.s, c.log) else AwaitingDelivery(env, c.s, c.log)
  }

  lemma ResumeUndecided(env: Env, c: Config, stage: Stage)
    requires Safe(env, c) && Paused(c) && PausedFor(env, c, stage)
    ensures Continues(env, c, ResumeMove(env, c, Undecided))
  {
    hide Frame, AwaitingRemediation, AwaitingDelivery, Paused, ResumeMove, AtEnd;
    ReviewUndecided(env, c.s, c.log, c.queue, stage, Some(Undecided));
    hide Review;
    assert c.log + [] == c.log;
    ResumeLands(env, c, Undecided, End);
  }

  lemma ResumeRejected(env: Env, c: Config, stage: Stage)
    requires Safe(env, c) && Paused(c) && PausedFor(env, c, stage)
    ensures Continues(env, c, ResumeMove(env, c, Rejected))
  {
    hide *;
    PausedFrame(env, c, stage);
    ReviewRejected(env, c.s, c.log, c.queue, stage);
    var s' := Review(stage, c.s.(feedback := Some(Rejected))).state;
    RejectionGoes(env, stage, s', c.log);
    assert c.log + [] == c.log;
    ResumeLands(env, c, Rejected, ClassifyFailure);
  }

  lemma PausedFrame(env: Env, c: Config, stage: Stage)
    requires Safe(env, c) && PausedFor(env, c, stage)
    ensures stage == ResumeStage(c.s) && Frame(env, c.s, c.log, c.queue)
    ensures if stage.RemediationStage? then AwaitingRemediation(env, c.s, c.log) else AwaitingDelivery(env, c.s, c.log)
  {
    hide Frame, AwaitingRemediation, AwaitingDelivery;
  }

  lemma RejectionGoes(env: Env, stage: Stage, s: State, log: seq<Entry>)
    requires DecisionOf(s).Rejected? && AtClassify(env, s, log)
    requires (stage.RemediationStage? ==> s.validations == []) && (stage.DeliveryStage? ==> LatestPassed(s))
    ensures Route(env, GateOf(stage), s) == Goto(ClassifyFailure) && ClassifyFailure in Successors(GateOf(stage))
    ensures AtNode(env, ClassifyFailure, s, log) && ResumeTarget(stage, ClassifyFailure, s)
  {
    hide AtClassify;
  }

  lemma ResumeApprovedDelivery(env: Env, c: Config)
    requires Safe(env, c) && Paused(c) && PausedFor(env, c, DeliveryStage)
    ensures Continues(env, c, ResumeMove(env, c, Approved))
  {
    hide Frame, Active, AwaitingDelivery, Paused, ResumeMove, DeliveryReady;
    ReviewApproves(env, c.s, c.log, c.queue, DeliveryStage);
    DeliveryApproved(env, c.s, c.log, c.queue);
    hide Review;
    ResumeLands(env, c, Approved, PublishRemediation);
  }

  lemma ResumeApprovedRemediation(env: Env, c: Config)
    requires Safe(env, c) && Paused(c) && PausedFor(env, c, RemediationStage)
    ensures Continues(env, c, ResumeMove(env, c, Approved))
  {
    hide Frame, Active, Paused, ResumeMove, AtLane, AtEnd;
    ReviewApproves(env, c.s, c.log, c.queue, RemediationStage);
    RemediationApproved(env, c.s, c.log, c.queue);
    match c.s.route.value.strategy
    case SimpleUpdate => ResumeLands(env, c, Approved, RemediateSimple);
    case TransitiveOverride => ResumeLands(env, c, Approved, RemediateTransitive);
    case ComplexRefactor => ResumeLands(env, c, Approved, PrepareComplexRemediation);
    case UnknownRoute => ResumeLands(env, c, Approved, End);
  }

  lemma ResumeContinues(env: Env, c: Config, d: Decision)
    requires Safe(env, c) && Paused(c)
    ensures Continues(env, c, ResumeMove(env, c, d))
  {
    hide Frame, AtNode, Measure, ResumeMove, AwaitingRemediation, AwaitingDelivery;
    PauseStage(env, c);
    var stage := ResumeStage(c.s);
    match d {
      case Undecided => ResumeUndecided(env, c, stage);
      case Rejected => ResumeRejected(env, c, stage);
      case Approved =>
        if stage.DeliveryStage? {
          ResumeApprovedDelivery(env, c);
        } else {
          ResumeApprovedRemediation(env, c);
        }
    }
  }

  lemma ResumeKeeps(env: Env, c: Config, d: Decision)
    requires Inv(env, c) && Paused(c)
    ensures Inv(env, ResumeMove(env, c, d))
  {
    hide Frame, AtNode, Measure, ResumeMove;
    ResumeContinues(env, c, d);
  }

  /* ---------- Every move, every run ---------- */

  lemma StepKeeps(env: Env, c: Config, m: Move)
    requires Inv(env, c)
    ensures Inv(env, Step(env, c, m))
  {
    hide TickMove, ResumeMove, Inv;
    if Enabled(c, m) {
      match m
      case Tick(x) => TickKeeps(env, c, x);
      case Resume(d) => ResumeKeeps(env, c, d);
    }
  }

  lemma {:induction false} RunKeeps(env: Env, c: Config, moves: seq<Move>)
    requires Inv(env, c)
    ensures Inv(env, RunFrom(env, c, moves))
    decreases |moves|
  {
    hide Inv, Step;
    if moves != [] {
      StepKeeps(env, c, moves[0]);
      RunKeeps(env, Step(env, c, moves[0]), moves[1..]);
    }
  }

  lemma {:induction false} RunExtends(env: Env, c: Config, moves: seq<Move>, m: Move)
    ensures RunFrom(env, c, moves + [m]) == Step(env, RunFrom(env, c, moves), m)
    decreases |moves|
  {
    hide Step;
    if moves == [] {
      assert [m][1..] == [];
    } else {
      assert (moves + [m])[1..] == moves[1..] + [m];
      RunExtends(env, Step(env, c, moves[0]), moves[1..], m);
    }
  }

  lemma StartHolds(env: Env)
    ensures Inv(env, Start)
  {
  }

  lemma ReachableHolds(env: Env, c: Config)
    requires Reachable(env, c)
    ensures Inv(env, c)
  {
    StartHolds(env);
    var moves: seq<Move> :| c == RunFrom(env, Start, moves);
    RunKeeps(env, Start, moves);
  }
}
