/**
 How long one invocation of the graph can be. An invocation executes nodes until the thread pauses or
 ends; over n repositories, whatever the adapters answer, it executes at most 7 + n (9 + 5 R) of them,
 R being the retries the budgets leave.
 */
module Invocations {
  import opened Collections
  import opened Verdicts
  import opened Workflow
  import opened Invariant
  import opened Preservation
  import opened Steps
  import opened Failures

  // k node executions, with any answers and no resume between them, lead from c to d.
  ghost predicate Invocation(env: Env, c: Config, k: nat, d: Config)
    decreases k
  {
    if k == 0 then c == d
    else Runnable(c) && exists x :: Invocation(env, TickMove(env, c, x), k - 1, d)
  }

  lemma InvocationNone(env: Env, c: Config, d: Config)
    ensures Invocation(env, c, 0, d) <==> c == d
  {
    hide TickMove, Runnable;
  }

  lemma InvocationFirst(env: Env, c: Config, k: nat, d: Config) returns (x: Input)
    requires k > 0 && Invocation(env, c, k, d)
    ensures Runnable(c) && Invocation(env, TickMove(env, c, x), k - 1, d)
  {
    hide TickMove, Runnable;
    x :| Invocation(env, TickMove(env, c, x), k - 1, d);
  }

  lemma InvocationMore(env: Env, c: Config, x: Input, k: nat, d: Config)
    requires Runnable(c) && Invocation(env, TickMove(env, c, x), k, d)
    ensures Invocation(env, c, k + 1, d)
  {
    hide TickMove, Runnable;
  }

  lemma {:induction false} InvocationOn(env: Env, c: Config, j: nat, d: Config, k: nat, e: Config)
    requires Invocation(env, c, j, d) && Invocation(env, d, k, e)
    ensures Invocation(env, c, j + k, e)
    decreases j
  {
    hide *;
    if j == 0 {
      InvocationNone(env, c, d);
    } else {
      var x := InvocationFirst(env, c, j, d);
      InvocationOn(env, TickMove(env, c, x), j - 1, d, k, e);
      InvocationMore(env, c, x, j - 1 + k, e);
    }
  }

  /* ---------- The measure ---------- */

  // The most node executions a repository takes in one invocation, when it is not the last one.
  function Cost(env: Env): nat {
    9 + 5 * RetryCap(env)
  }

  // The most node executions left in this invocation when no retry and no repository follow.
  function Left(n: Node): nat {
    match n
    case DetectMavenProfile => 11
    case VerifyAdvisory => 10
    case VerifyMavenTarget => 9
    case SelectRoute => 8
    case ApplyPolicy => 7
    case PrepareComplexRemediation => 7
    case ExecuteComplexScaffold => 6
    case RemediateSimple => 6
    case RemediateTransitive => 6
    case PreflightValidate => 5
    case ValidateRemediation => 4
    case HandleValidationFailure => 3
    case PrepareDeliveryApproval => 3
    case PublishRemediation => 3
    case SkipPublishForDryRun => 3
    case ClassifyFailure => 2
    case End => 0
    case _ => 1
  }

  function Others(env: Env, n: nat): nat {
    if n <= 1 then 0 else Cost(env) + Others(env, n - 1)
  }

  lemma {:induction false} OthersIs(env: Env, n: nat)
    requires n > 0
    ensures Others(env, n) == (n - 1) * Cost(env)
  {
    if n > 1 {
      OthersIs(env, n - 1);
      assert (n - 1) * Cost(env) == (n - 2) * Cost(env) + Cost(env);
    }
  }

  function LeftIn(env: Env, c: Config): nat {
    if c.node.End? then 0
    else Left(c.node) + 5 * Max(0, RetryCap(env) - c.s.retryCount) + Others(env, |Distinct(c.s.pending)|)
  }

  // Fewer executions are left, with the same repositories and retries.
  lemma LeftDrops(env: Env, c: Config, c': Config)
    requires SameBudget(c.s, c'.s) && !c.node.End? && Left(c'.node) < Left(c.node)
    ensures LeftIn(env, c') < LeftIn(env, c)
  {
  }

  lemma LeftRetries(env: Env, c: Config, c': Config)
    requires c'.s.pending == c.s.pending && c'.s.retryCount == c.s.retryCount + 1 <= RetryCap(env)
    requires c.node.ClassifyFailure? && !c'.node.End? && Left(c'.node) <= 6
    ensures LeftIn(env, c') < LeftIn(env, c)
  {
  }

  lemma LeftFinishes(env: Env, c: Config, c': Config)
    requires HeadFinished(c.s, c'.s) && Left(c.node) == 3 && !c.node.End?
    requires c'.node == if c'.s.pending != [] then DetectMavenProfile else End
    ensures LeftIn(env, c') < LeftIn(env, c)
  {
    assert Distinct(c.s.pending) == [c.s.pending[0]] + Distinct(Without(c.s.pending[1..], c.s.pending[0]));
    assert Without(c.s.pending, c.s.pending[0]) == Without(c.s.pending[1..], c.s.pending[0]);
    assert c'.s.pending != [] ==> |Distinct(c'.s.pending)| > 0;
    hide SelectPostDelivery;
  }

  /* ---------- Nodes that keep the repository and its retries ---------- */

  predicate Keeps(s: State, o: Outcome) {
    o.Done? ==> SameBudget(s, o.state)
  }

  lemma PlanningKeeps(s: State, x: Input)
    ensures Keeps(s, DetectProfile(s)) && Keeps(s, LoadAdvisory(s, x)) && Keeps(s, VerifyTarget(s, x)) && Keeps(s, ChooseRoute(s))
  {
  }

  lemma GatesKeep(env: Env, s: State)
    ensures Keeps(s, ApplyPolicyUpdate(env, s)) && Keeps(s, PrepareDelivery(s))
    ensures Keeps(s, Review(RemediationStage, s)) && Keeps(s, Review(DeliveryStage, s))
  {
    hide EvaluatePolicy;
  }

  lemma PomKeeps(n: Node, strategy: Strategy, s: State, x: Input)
    ensures Keeps(s, PomLane(n, strategy, s, x))
  {
  }

  lemma ComplexKeeps(s: State, x: Input)
    ensures Keeps(s, PrepareComplex(s)) && Keeps(s, ExecuteScaffold(s, x))
  {
  }

  lemma ValidationKeeps(s: State, x: Input)
    ensures Keeps(s, Preflight(s, x)) && Keeps(s, Validate(s, x)) && Keeps(s, HandleFailure(s)) && Keeps(s, EscalateUpdate(s))
  {
  }

  // Nodes whose update leaves the queue and the retry count alone.
  predicate Steady(n: Node) {
    !BeforeIntake(n) && !n.PublishRemediation? && !n.SkipPublishForDryRun? && !n.ClassifyFailure? && !n.End?
  }

  lemma SteadyKeeps(env: Env, n: Node, s: State, x: Input)
    requires Steady(n)
    ensures Keeps(s, Exec(env, n, s, x))
  {
    PlanningKeeps(s, x);
    GatesKeep(env, s);
    PomKeeps(RemediateSimple, SimpleUpdate, s, x);
    PomKeeps(RemediateTransitive, TransitiveOverride, s, x);
    ComplexKeeps(s, x);
    ValidationKeeps(s, x);
    hide Keeps, DetectProfile, LoadAdvisory, VerifyTarget, ChooseRoute, ApplyPolicyUpdate, Review, PrepareDelivery, PomLane,
      PrepareComplex, ExecuteScaffold, Preflight, Validate, HandleFailure, EscalateUpdate, Bootstrap, Probe, Ingest,
      LoadContext, CheckIdempotency, Publish, SkipPublish, ClassifyUpdate;
  }

  // A tick without a fault follows a declared edge the router selected.
  lemma TickFollows(env: Env, c: Config, x: Input)
    requires c.fault.None? && !BeforeIntake(c.node) && TickMove(env, c, x).fault.None?
    ensures var c' := TickMove(env, c, x); var o := Exec(env, c.node, c.s, x);
      && o.Done? && c'.s == o.state && c'.queue == c.queue
      && Route(env, c.node, o.state) == Goto(c'.node) && c'.node in Successors(c.node)
  {
    hide Exec, Route, Successors;
  }

  lemma TickSafe(env: Env, c: Config, x: Input)
    requires Safe(env, c) && Runnable(c)
    ensures Safe(env, TickMove(env, c, x)) && TickMove(env, c, x).queue == c.queue
    ensures c.fault.None? && TickMove(env, c, x).fault.None? && !BeforeIntake(c.node) && !c.node.End?
  {
    TickAfterIntake(env, c, x);
    hide TickMove, Frame, AtNode, Measure;
  }

  // Inside an invocation no complex plan follows policy, and nothing follows a gate.
  lemma NoWayThroughGates(env: Env, c: Config, x: Input, n: Node)
    requires Safe(env, c) && Exec(env, c.node, c.s, x).Done? && Route(env, c.node, Exec(env, c.node, c.s, x).state) == Goto(n)
    ensures c.node.ApplyPolicy? ==> !n.PrepareComplexRemediation?
    ensures c.node.ReviewRemediationApproval? || c.node.ReviewDeliveryApproval? ==> n.End?
  {
    hide Safe;
    if c.node.ApplyPolicy? {
      PolicyAvoidsPlan(env, c, x);
      hide Exec, Route;
    } else if c.node.ReviewRemediationApproval? || c.node.ReviewDeliveryApproval? {
      GateUndecided(env, c);
      hide Noted;
    } else {
      hide Exec, Route;
    }
  }

  lemma GateUndecided(env: Env, c: Config)
    requires Safe(env, c) && (c.node.ReviewRemediationApproval? || c.node.ReviewDeliveryApproval?)
    ensures DecisionOf(c.s).Undecided?
  {
    hide Frame, LogView, OwnedBy;
    assert c.node.ReviewRemediationApproval? ==> AtReviewRemediation(env, c.s, c.log);
    assert c.node.ReviewDeliveryApproval? ==> AtReviewDelivery(env, c.s, c.log);
  }

  lemma PolicyAvoidsPlan(env: Env, c: Config, x: Input)
    requires Safe(env, c) && c.node.ApplyPolicy?
    ensures Exec(env, c.node, c.s, x) == ApplyPolicyUpdate(env, c.s)
    ensures forall n :: Route(env, c.node, ApplyPolicyUpdate(env, c.s).state) == Goto(n) ==> !n.PrepareComplexRemediation?
  {
    assert AtApplyPolicy(env, c.s, c.log);
    PolicyGoes(env, c, x);
    hide *;
    var d := EvaluatePolicy(env.policy, c.s);
    PolicyReady(env, c);
    ComplexNeedsApproval(env, c);
    PolicyFacts(env.policy, c.s);
    PolicyRouting(c.s, d);
  }

  lemma PolicyGoes(env: Env, c: Config, x: Input)
    requires c.node.ApplyPolicy?
    ensures Exec(env, c.node, c.s, x) == ApplyPolicyUpdate(env, c.s)
    ensures ApplyPolicyUpdate(env, c.s).Done?
    ensures ApplyPolicyUpdate(env, c.s).state == PolicyUpdate(c.s, EvaluatePolicy(env.policy, c.s))
    ensures forall s :: Route(env, c.node, s) == SelectPostPolicy(s)
    ensures forall strategy: Strategy :: LaneNode(strategy).PrepareComplexRemediation? ==> strategy.ComplexRefactor?
  {
    hide EvaluatePolicy, PolicyUpdate, SelectPostPolicy;
  }

  lemma ComplexNeedsApproval(env: Env, c: Config)
    requires AtApplyPolicy(env, c.s, c.log)
    ensures c.s.route.Some?
    ensures c.s.route.value.strategy.ComplexRefactor? || c.s.route.value.strategy.UnknownRoute? ==> c.s.route.value.requiresApproval
    ensures c.s.requiresApproval == c.s.route.value.requiresApproval
  {
    hide LogView, OwnedBy;
  }

  lemma SteadyDrops(env: Env, c: Config, x: Input)
    requires Safe(env, c) && Runnable(c) && Steady(c.node)
    ensures LeftIn(env, TickMove(env, c, x)) < LeftIn(env, c)
  {
    hide Safe, Exec, Runnable, TickMove, Route, LeftIn;
    TickSafe(env, c, x);
    TickFollows(env, c, x);
    SteadyKeeps(env, c.node, c.s, x);
    var c' := TickMove(env, c, x);
    NoWayThroughGates(env, c, x, c'.node);
    SuccessorIsLess(c.node, c'.node);
    LeftDrops(env, c, c');
  }

  lemma SuccessorIsLess(n: Node, n': Node)
    requires Steady(n) && n' in Successors(n)
    requires n.ApplyPolicy? ==> !n'.PrepareComplexRemediation?
    requires n.ReviewRemediationApproval? || n.ReviewDeliveryApproval? ==> n'.End?
    ensures Left(n') < Left(n)
  {
  }

  /* ---------- Nodes that retry or finish ---------- */

  lemma ClassifyDrops(env: Env, c: Config, x: Input)
    requires Safe(env, c) && Runnable(c) && c.node.ClassifyFailure?
    ensures LeftIn(env, TickMove(env, c, x)) < LeftIn(env, c)
  {
    hide Safe, Runnable, TickMove, CanRetry, RetryNode, LeftIn, RetryCap, ClassifyUpdate, Route, Successors;
    TickSafe(env, c, x);
    TickFollows(env, c, x);
    ClassifyLands(env, c, x);
    ClassifyCounts(env, c);
    var c' := TickMove(env, c, x);
    assert c'.s == ClassifyUpdate(env, c.s).state;
    if CanRetry(env, c.s) {
      RetryIsLow(c.s);
      LeftRetries(env, c, c');
    } else {
      LeftDrops(env, c, c');
    }
  }

  lemma ClassifyCounts(env: Env, c: Config)
    requires Safe(env, c) && c.node.ClassifyFailure?
    ensures var s' := ClassifyUpdate(env, c.s).state;
      && (CanRetry(env, c.s) ==>
            RetryNode(c.s).Some? && s'.pending == c.s.pending && s'.retryCount == c.s.retryCount + 1 <= RetryCap(env))
      && (!CanRetry(env, c.s) ==> SameBudget(c.s, s'))
  {
    assert Counted(env, c.s);
    if CanRetry(env, c.s) {
      RetryIsLow(c.s);
    }
    hide Classify, Frame, LogView, OwnedBy, FailureKnown, RetryNode;
  }

  lemma RetryIsLow(s: State)
    requires RetryNode(s).Some?
    ensures RetryNode(s).value != Escalate && RetryNode(s).value != End && Left(RetryNode(s).value) <= 6
  {
  }

  lemma FinishesDrop(env: Env, c: Config, x: Input, o: Outcome)
    requires Safe(env, c) && Runnable(c) && (c.node.PublishRemediation? || c.node.SkipPublishForDryRun?)
    requires Exec(env, c.node, c.s, x) == o && o.Done? && HeadFinished(c.s, o.state)
    ensures HeadFinished(c.s, TickMove(env, c, x).s)
    ensures TickMove(env, c, x).node == if TickMove(env, c, x).s.pending != [] then DetectMavenProfile else End
    ensures LeftIn(env, TickMove(env, c, x)) < LeftIn(env, c)
  {
    hide Safe, Exec, Runnable, TickMove, LeftIn, SelectPostDelivery;
    TickSafe(env, c, x);
    TickFollows(env, c, x);
    var c' := TickMove(env, c, x);
    LeftFinishes(env, c, c');
  }

  lemma SkipDrops(env: Env, c: Config, x: Input)
    requires Safe(env, c) && Runnable(c) && c.node.SkipPublishForDryRun?
    ensures LeftIn(env, TickMove(env, c, x)) < LeftIn(env, c)
  {
    hide Frame, HeadFinished, Runnable, TickMove, LeftIn, AtSkip;
    SkipNode(env, c.s, c.log, c.queue);
    hide SkipPublish;
    FinishesDrop(env, c, x, SkipPublish(c.s));
  }

  lemma PublishDrops(env: Env, c: Config, x: Input)
    requires Safe(env, c) && Runnable(c) && c.node.PublishRemediation?
    ensures LeftIn(env, TickMove(env, c, x)) < LeftIn(env, c)
  {
    hide *;
    PublishReady(env, c);
    FailedDelivery(env, c, x);
    if Deliver(c.s, c.s.working.value, x).failure.Some? {
      FailedPublishKeeps(c.s, x);
      PublishLands(env, c, x);
      FailedPublishDrops(env, c, x);
    } else {
      DeliverySucceeds(env, c.s, c.log, c.queue, x);
      PublishGoesOn(env, c, x);
      FinishesDrop(env, c, x, Publish(c.s, x));
    }
  }

  lemma PublishReady(env: Env, c: Config)
    requires Safe(env, c) && c.node.PublishRemediation?
    ensures Frame(env, c.s, c.log, c.queue) && DeliveryReady(env, c.s, c.log)
    ensures c.s.pending != [] && c.s.working == Some(c.s.pending[0])
  {
    hide Frame, LogView, OwnedBy, Cleared;
  }

  lemma FailedPublishDrops(env: Env, c: Config, x: Input)
    requires c.node.PublishRemediation? && Publish(c.s, x).Done? && SameBudget(c.s, Publish(c.s, x).state)
    requires TickMove(env, c, x) == Landing(c, ClassifyFailure, Publish(c.s, x))
    ensures LeftIn(env, TickMove(env, c, x)) < LeftIn(env, c)
  {
    hide Publish, TickMove, LeftIn;
    LeftDrops(env, c, TickMove(env, c, x));
  }

  lemma FailedPublishKeeps(s: State, x: Input)
    requires s.working.Some? && Deliver(s, s.working.value, x).failure.Some?
    ensures Publish(s, x).Done? && SameBudget(s, Publish(s, x).state)
  {
    hide Deliver, DeliveryErrorCode;
  }

  /** Every node execution uses up at least one of those the invocation has left. */
  lemma InvocationSpends(env: Env, c: Config, x: Input)
    requires Safe(env, c) && Runnable(c)
    ensures LeftIn(env, TickMove(env, c, x)) < LeftIn(env, c)
  {
    hide Frame, AtNode, LeftIn, TickMove;
    if c.node.ClassifyFailure? {
      ClassifyDrops(env, c, x);
    } else if c.node.PublishRemediation? {
      PublishDrops(env, c, x);
    } else if c.node.SkipPublishForDryRun? {
      SkipDrops(env, c, x);
    } else {
      SteadyDrops(env, c, x);
    }
  }

  lemma {:induction false} InvocationEnds(env: Env, c: Config, k: nat, d: Config)
    requires Safe(env, c) && Invocation(env, c, k, d)
    ensures k + LeftIn(env, d) <= LeftIn(env, c) && d.queue == c.queue && Safe(env, d)
    decreases k
  {
    hide Safe, TickMove, LeftIn, Runnable;
    if k > 0 {
      var x := InvocationFirst(env, c, k, d);
      TickSafe(env, c, x);
      InvocationSpends(env, c, x);
      InvocationEnds(env, TickMove(env, c, x), k - 1, d);
    }
  }

  // What the repositories queued may cost together.
  function Share(env: Env, queue: seq<string>): nat {
    |Distinct(queue)| * Cost(env)
  }

  // What is left anywhere after intake, in terms of the repositories queued.
  lemma LeftAtMost(env: Env, c: Config)
    requires Safe(env, c)
    ensures LeftIn(env, c) <= 2 + Share(env, c.queue)
  {
    hide Safe, Distinct, LeftIn;
    LeftInIs(env, c);
    if !c.node.End? {
      PendingLeft(env, c);
      OthersIs(env, |Distinct(c.s.pending)|);
      CostGrows(|Distinct(c.s.pending)|, |Distinct(c.queue)|, Cost(env));
    }
  }

  lemma LeftInIs(env: Env, c: Config)
    ensures c.node.End? ==> LeftIn(env, c) == 0
    ensures LeftIn(env, c) <= 11 + 5 * RetryCap(env) + Others(env, |Distinct(c.s.pending)|)
  {
    LeftAtMostEleven(c.node);
    hide Left, Others, Distinct;
  }

  lemma LeftAtMostEleven(n: Node)
    ensures Left(n) <= 11
  {
  }

  lemma CostGrows(m: nat, n: nat, cost: nat)
    requires 0 < m <= n
    ensures (m - 1) * cost + cost <= n * cost
  {
  }

  lemma PendingLeft(env: Env, c: Config)
    requires Safe(env, c) && !c.node.End?
    ensures 0 < |Distinct(c.s.pending)| <= |Distinct(c.queue)|
  {
    HeadThere(env, c);
    hide AtNode, WorkspacesKnown, LogScope;
    assert |c.s.completed + Distinct(c.s.pending)| == |Distinct(c.queue)|;
  }

  lemma HeadThere(env: Env, c: Config)
    requires Safe(env, c) && !c.node.End?
    ensures c.s.pending != []
  {
    hide Frame, LogView, OwnedBy;
  }

  /* ---------- From the start ---------- */

  // Nodes of the intake still to execute.
  function IntakeLeft(n: Node): nat {
    match n
    case BootstrapState => 5
    case ProbeCredentials => 4
    case IngestAndParseJira => 3
    case LoadRepositoryContext => 2
    case _ => 1
  }

  lemma IntakeStep(env: Env, c: Config, x: Input)
    requires Inv(env, c) && BeforeIntake(c.node)
    ensures var c' := TickMove(env, c, x);
      && Inv(env, c')
      && (BeforeIntake(c'.node) ==> IntakeLeft(c'.node) < IntakeLeft(c.node))
  {
    TickKeepsInv(env, c, x);
    IntakeGoesOn(env, c, x);
    hide Inv, TickMove;
  }

  lemma TickKeepsInv(env: Env, c: Config, x: Input)
    requires Inv(env, c) && BeforeIntake(c.node)
    ensures Inv(env, TickMove(env, c, x))
  {
    hide Frame, AtNode, TickMove;
    if c.node.CheckRepositoryIdempotency? {
      TickIdempotency(env, c, x);
    } else {
      TickIntake(env, c, x);
    }
  }

  lemma IntakeGoesOn(env: Env, c: Config, x: Input)
    requires BeforeIntake(c.node) && TickMove(env, c, x).fault.None?
    ensures BeforeIntake(TickMove(env, c, x).node) ==> IntakeLeft(TickMove(env, c, x).node) < IntakeLeft(c.node)
  {
    hide Bootstrap, Probe, Ingest, LoadContext, CheckIdempotency;
  }

  lemma {:induction false} FromIntake(env: Env, c: Config, k: nat, d: Config)
    requires Inv(env, c) && BeforeIntake(c.node) && Invocation(env, c, k, d)
    ensures k <= IntakeLeft(c.node) + 2 + Share(env, d.queue)
    decreases k
  {
    hide *;
    IntakeLeftBounds(c.node);
    if k > 0 {
      var x := InvocationFirst(env, c, k, d);
      var c' := TickMove(env, c, x);
      IntakeStep(env, c, x);
      if BeforeIntake(c'.node) {
        FromIntake(env, c', k - 1, d);
      } else {
        AfterIntakeIsSafe(env, c');
        InvocationEnds(env, c', k - 1, d);
        LeftAtMost(env, c');
      }
    }
  }

  lemma IntakeLeftBounds(n: Node)
    ensures 1 <= IntakeLeft(n) <= 5
  {
  }

  lemma AfterIntakeIsSafe(env: Env, c: Config)
    requires Inv(env, c) && !BeforeIntake(c.node)
    ensures Safe(env, c)
  {
    hide Frame, AtNode;
  }

  /** However the adapters answer, one invocation of the graph, from the start or from where a resume
      left the run, executes at most 7 + n (9 + 5 R) nodes, n being the repositories queued. */
  lemma InvocationBound(env: Env, c: Config, k: nat, d: Config)
    requires Reachable(env, c) && Invocation(env, c, k, d)
    ensures k <= 7 + |Distinct(d.queue)| * (9 + 5 * RetryCap(env))
  {
    ReachableHolds(env, c);
    ShareIs(env, d.queue);
    IntakeLeftBounds(c.node);
    hide *;
    if BeforeIntake(c.node) {
      FromIntake(env, c, k, d);
    } else {
      AfterIntakeIsSafe(env, c);
      InvocationEnds(env, c, k, d);
      LeftAtMost(env, c);
    }
  }

  lemma ShareIs(env: Env, queue: seq<string>)
    ensures Share(env, queue) == |Distinct(queue)| * (9 + 5 * RetryCap(env))
  {
  }
}
