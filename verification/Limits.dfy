/**
 When a run stays within the recursion limit (persistence.py): the graph is invoked with a limit of 64
 node executions. The longest invocation over n repositories executes exactly 7 + n (9 + 5 R) nodes;
 an undisturbed one executes 5 + 9 n.
 */
module Limits {
  import opened Collections
  import opened Verdicts
  import opened Workflow
  import opened Trace
  import opened Invariant
  import opened Preservation
  import opened Steps
  import opened Runs
  import opened Failures
  import opened Invocations
  import Isolation

  const RECURSION_LIMIT: nat := 64

  // Everything is verified, low-risk and direct; validation passes; delivery succeeds.
  function Smooth(targets: seq<Target>): Input {
    Input("group:artifact", targets, [], Verified, MavenVerification(Verified, false, false), true, [],
      CheckPassed, [], false, Succeeds, Succeeds, Succeeds)
  }

  predicate Untagged(s: State) {
    forall r :: r in s.pending && r in s.repoMap ==> s.repoMap[r].tags == {}
  }

  // What the straight line through the simple lane has established before each node.
  predicate LineFacts(n: Node, s: State) {
    match n
    case DetectMavenProfile => true
    case VerifyAdvisory => true
    case VerifyMavenTarget => s.advisory == Some(Verified)
    case SelectRoute => s.advisory == Some(Verified) && s.maven == Some(MavenVerification(Verified, false, false))
    case ApplyPolicy => s.route == Some(RouteDecision(SimpleUpdate, false))
    case RemediateSimple => s.route == Some(RouteDecision(SimpleUpdate, false))
    case PreflightValidate => s.route == Some(RouteDecision(SimpleUpdate, false))
    case ValidateRemediation => s.route == Some(RouteDecision(SimpleUpdate, false))
    case PublishRemediation => true
    case _ => false
  }

  function NextOnLine(n: Node): Node {
    match n
    case DetectMavenProfile => VerifyAdvisory
    case VerifyAdvisory => VerifyMavenTarget
    case VerifyMavenTarget => SelectRoute
    case SelectRoute => ApplyPolicy
    case ApplyPolicy => RemediateSimple
    case RemediateSimple => PreflightValidate
    case PreflightValidate => ValidateRemediation
    case _ => PublishRemediation
  }

  // One node further along the line, within the same repository.
  predicate Advances(c: Config, c': Config) {
    && c'.node == NextOnLine(c.node) && LineFacts(c'.node, c'.s)
    && c'.s.pending == c.s.pending && c'.s.repoMap == c.s.repoMap && c'.s.retryCount == c.s.retryCount
  }

  lemma LineDetect(env: Env, c: Config, x: Input)
    requires Safe(env, c) && LineFacts(c.node, c.s) && x == Smooth(x.targets) && c.node.DetectMavenProfile?
    ensures Advances(c, TickMove(env, c, x))
  {
    hide Frame, LogView, OwnedBy, EndsAs;
    DetectNode(env, c.s, c.log, c.queue);
    Lands(env, c, x, VerifyAdvisory);
  }

  lemma LineAdvisory(env: Env, c: Config, x: Input)
    requires Safe(env, c) && LineFacts(c.node, c.s) && x == Smooth(x.targets) && c.node.VerifyAdvisory?
    ensures Advances(c, TickMove(env, c, x))
  {
    hide Frame, LogView, OwnedBy, EndsAs;
    AdvisoryNode(env, c.s, c.log, c.queue, x);
    Lands(env, c, x, VerifyMavenTarget);
  }

  lemma LineMaven(env: Env, c: Config, x: Input)
    requires Safe(env, c) && LineFacts(c.node, c.s) && x == Smooth(x.targets) && c.node.VerifyMavenTarget?
    ensures Advances(c, TickMove(env, c, x))
  {
    hide Frame, LogView, OwnedBy, EndsAs;
    MavenNode(env, c.s, c.log, c.queue, x);
    Lands(env, c, x, SelectRoute);
  }

  lemma LineRoute(env: Env, c: Config, x: Input)
    requires Safe(env, c) && LineFacts(c.node, c.s) && x == Smooth(x.targets) && c.node.SelectRoute?
    ensures Advances(c, TickMove(env, c, x))
  {
    hide Frame, LogView, OwnedBy, EndsAs;
    RouteNode(env, c.s, c.log, c.queue);
    Lands(env, c, x, ApplyPolicy);
  }

  lemma UntaggedPasses(env: Env, s: State, log: seq<Entry>, queue: seq<string>)
    requires Frame(env, s, log, queue) && AtApplyPolicy(env, s, log) && Untagged(s)
    requires s.route == Some(RouteDecision(SimpleUpdate, false))
    ensures EvaluatePolicy(env.policy, s) == PolicyDecision(true, false, false)
  {
    hide Justified, LogView, OwnedBy, QueueConserved, LogScope;
    assert CurrentTags(s) == {};
    assert CurrentTags(s) * env.policy.blockedTags == {} && CurrentTags(s) * env.policy.approvalTags == {};
  }

  lemma LinePolicy(env: Env, c: Config, x: Input)
    requires Safe(env, c) && LineFacts(c.node, c.s) && x == Smooth(x.targets) && c.node.ApplyPolicy? && Untagged(c.s)
    ensures Advances(c, TickMove(env, c, x))
  {
    hide Frame, LogView, OwnedBy, EndsAs;
    assert AtApplyPolicy(env, c.s, c.log);
    UntaggedPasses(env, c.s, c.log, c.queue);
    PolicyRouting(c.s, PolicyDecision(true, false, false));
    PolicyState(c.s, PolicyDecision(true, false, false));
    hide EvaluatePolicy, SelectPostPolicy, AtApplyPolicy, Active;
    Lands(env, c, x, RemediateSimple);
  }

  lemma LineSimple(env: Env, c: Config, x: Input)
    requires Safe(env, c) && LineFacts(c.node, c.s) && x == Smooth(x.targets) && c.node.RemediateSimple?
    ensures Advances(c, TickMove(env, c, x))
  {
    hide Frame, LogView, OwnedBy, EndsAs;
    PomLaneNode(env, RemediateSimple, c.s, c.log, c.queue, SimpleUpdate, x);
    Lands(env, c, x, PreflightValidate);
  }

  lemma LinePreflight(env: Env, c: Config, x: Input)
    requires Safe(env, c) && LineFacts(c.node, c.s) && x == Smooth(x.targets) && c.node.PreflightValidate?
    ensures Advances(c, TickMove(env, c, x))
  {
    hide Frame, LogView, OwnedBy, EndsAs;
    PreflightNode(env, c.s, c.log, c.queue, x);
    Lands(env, c, x, ValidateRemediation);
  }

  lemma LineValidate(env: Env, c: Config, x: Input)
    requires Safe(env, c) && LineFacts(c.node, c.s) && x == Smooth(x.targets) && c.node.ValidateRemediation? && !env.dryRun
    ensures Advances(c, TickMove(env, c, x))
  {
    hide Frame, LogView, OwnedBy, EndsAs;
    Lands(env, c, x, PublishRemediation);
  }

  lemma LinePublish(env: Env, c: Config, x: Input)
    requires Safe(env, c) && x == Smooth(x.targets) && c.node.PublishRemediation?
    ensures var c' := TickMove(env, c, x);
      && HeadFinished(c.s, c'.s) && c'.s.repoMap == c.s.repoMap
      && c'.node == if c'.s.pending != [] then DetectMavenProfile else End
  {
    hide *;
    PublishReady(env, c);
    SmoothDelivery(c.s, c.s.pending[0], x);
    DeliverySucceeds(env, c.s, c.log, c.queue, x);
    PublishKeepsWorkspaces(c.s, x);
    PublishContinues(env, c, x);
  }

  lemma SmoothDelivery(s: State, r: string, x: Input)
    requires x == Smooth(x.targets)
    ensures Deliver(s, r, x).failure.None?
  {
  }

  lemma PublishKeepsWorkspaces(s: State, x: Input)
    ensures Publish(s, x).Done? ==> Publish(s, x).state.repoMap == s.repoMap
  {
    hide Deliver, DeliveryErrorCode, Without, FindTargetIndex;
  }

  lemma PublishContinues(env: Env, c: Config, x: Input)
    requires c.node.PublishRemediation? && Publish(c.s, x).Done? && HeadFinished(c.s, Publish(c.s, x).state)
    ensures var c' := TickMove(env, c, x);
      && c'.s == Publish(c.s, x).state
      && c'.node == if c'.s.pending != [] then DetectMavenProfile else End
  {
    hide Publish, SelectPostDelivery, TickMove;
    Lands(env, c, x, if Publish(c.s, x).state.pending != [] then DetectMavenProfile else End);
  }

  // Node executions left until the repository is finished.
  function LineLeft(n: Node): nat {
    match n
    case DetectMavenProfile => 9
    case VerifyAdvisory => 8
    case VerifyMavenTarget => 7
    case SelectRoute => 6
    case ApplyPolicy => 5
    case RemediateSimple => 4
    case PreflightValidate => 3
    case ValidateRemediation => 2
    case _ => 1
  }

  lemma LineAdvances(env: Env, c: Config, x: Input)
    requires Safe(env, c) && LineFacts(c.node, c.s) && x == Smooth(x.targets) && Untagged(c.s)
    requires !c.node.PublishRemediation? && (c.node.ValidateRemediation? ==> !env.dryRun)
    ensures Advances(c, TickMove(env, c, x))
  {
    hide TickMove, Frame, AtNode, Untagged, Advances, Smooth;
    match c.node
    case DetectMavenProfile => LineDetect(env, c, x);
    case VerifyAdvisory => LineAdvisory(env, c, x);
    case VerifyMavenTarget => LineMaven(env, c, x);
    case SelectRoute => LineRoute(env, c, x);
    case ApplyPolicy => LinePolicy(env, c, x);
    case RemediateSimple => LineSimple(env, c, x);
    case PreflightValidate => LinePreflight(env, c, x);
    case ValidateRemediation => LineValidate(env, c, x);
  }

  // A run of ticks, all enabled, leads from c to d.
  ghost predicate Leads(env: Env, c: Config, x: Input, k: nat, d: Config)
    decreases k
  {
    if k == 0 then c == d
    else Runnable(c) && Leads(env, TickMove(env, c, x), x, k - 1, d)
  }

  lemma {:induction false} LeadsOn(env: Env, c: Config, x: Input, j: nat, d: Config, k: nat, e: Config)
    requires Leads(env, c, x, j, d) && Leads(env, d, x, k, e)
    ensures Leads(env, c, x, j + k, e)
    decreases j
  {
    hide TickMove, Runnable;
    if j > 0 {
      LeadsOn(env, TickMove(env, c, x), x, j - 1, d, k, e);
    }
  }

  lemma {:induction false} FinishRepositorySmoothly(env: Env, c: Config, x: Input) returns (d: Config)
    requires Safe(env, c) && LineFacts(c.node, c.s) && x == Smooth(x.targets) && Untagged(c.s) && !env.dryRun
    ensures Leads(env, c, x, LineLeft(c.node), d) && Safe(env, d)
    ensures HeadFinished(c.s, d.s) && d.s.repoMap == c.s.repoMap && d.steps == c.steps + LineLeft(c.node) && d.queue == c.queue
    ensures d.node == if d.s.pending != [] then DetectMavenProfile else End
    decreases LineLeft(c.node)
  {
    hide TickMove, Frame, AtNode, HeadFinished, Smooth, Measure;
    TickAfterIntake(env, c, x);
    var c' := TickMove(env, c, x);
    assert Runnable(c);
    if c.node.PublishRemediation? {
      LinePublish(env, c, x);
      d := c';
      assert Leads(env, c', x, 0, d);
    } else {
      LineAdvances(env, c, x);
      d := FinishRepositorySmoothly(env, c', x);
      HeadFinishedAs(c.s, c'.s, d.s);
    }
  }

  lemma HeadFinishedAs(s: State, s': State, t: State)
    requires s'.pending == s.pending && HeadFinished(s', t)
    ensures HeadFinished(s, t)
  {
  }

  /** From the first repository on: nine node executions for each distinct one. */
  lemma {:induction false} FinishQueueSmoothly(env: Env, c: Config, x: Input) returns (d: Config)
    requires Safe(env, c) && c.node.DetectMavenProfile? && c.s.pending != []
    requires x == Smooth(x.targets) && Untagged(c.s) && !env.dryRun
    ensures Leads(env, c, x, 9 * |Distinct(c.s.pending)|, d) && Safe(env, d)
    ensures d.node.End? && d.s.status.Completed? && d.steps == c.steps + 9 * |Distinct(c.s.pending)|
    decreases |c.s.pending|
  {
    hide TickMove, Frame, AtNode, Smooth, Leads;
    var e := FinishRepositorySmoothly(env, c, x);
    var r := c.s.pending[0];
    assert Distinct(c.s.pending) == [r] + Distinct(Without(c.s.pending[1..], r));
    assert |e.s.pending| < |c.s.pending|;
    if e.s.pending == [] {
      d := e;
    } else {
      d := FinishQueueSmoothly(env, e, x);
      LeadsOn(env, c, x, 9, e, 9 * |Distinct(e.s.pending)|, d);
    }
  }

  /* ---------- Intake ---------- */

  function Names(targets: seq<Target>): seq<string> {
    if targets == [] then [] else Names(targets[..|targets| - 1]) + [targets[|targets| - 1].repository]
  }

  lemma {:induction false} NothingSkipped(targets: seq<Target>, r: string)
    requires forall t :: t in targets ==> t.tags == {}
    ensures PendingOf(targets, []) == Names(targets)
    ensures var m := WorkspacesOf(targets, [], map[]); r in m ==> m[r].tags == {}
  {
    if targets != [] {
      NothingSkipped(targets[..|targets| - 1], r);
    }
  }

  lemma IntakeAdvances(env: Env, c: Config, x: Input)
    requires Inv(env, c) && BeforeIntake(c.node) && !c.node.CheckRepositoryIdempotency?
    ensures var c' := TickMove(env, c, x);
      && Inv(env, c') && c'.steps == c.steps + 1 && BeforeIntake(c'.node) && Rank(c') == Rank(c) - 1
      && (c.node.LoadRepositoryContext? ==> c'.s.targets == x.targets)
  {
    TickIntake(env, c, x);
    hide Inv;
    assert Blank(c);
  }

  lemma IntakeCompletes(env: Env, c: Config, x: Input)
    requires Inv(env, c) && c.node.CheckRepositoryIdempotency? && x == Smooth(c.s.targets)
    requires c.s.targets != [] && forall t :: t in c.s.targets ==> t.tags == {}
    ensures var c' := TickMove(env, c, x);
      && Safe(env, c') && c'.node.DetectMavenProfile? && c'.s.pending == c'.queue == Names(c.s.targets) && Untagged(c'.s)
      && c'.steps == 5
  {
    hide *;
    TickIdempotency(env, c, x);
    BlankIntake(env, c);
    IdempotencyTick(env, c, x);
    IntakeQueues(c.s, x);
    SafeAfterIntake(env, TickMove(env, c, x));
  }

  lemma BlankIntake(env: Env, c: Config)
    requires Inv(env, c) && c.node.CheckRepositoryIdempotency?
    ensures c.fault.None? && c.steps == 4 && c.log == [] && c.s.repoMap == map[]
  {
    hide Frame, AtNode, Bounded;
  }

  lemma SafeAfterIntake(env: Env, c: Config)
    requires Inv(env, c) && c.node.DetectMavenProfile?
    ensures Safe(env, c)
  {
    hide Frame, AtNode, Bounded, Blank;
  }

  lemma IntakeQueues(s: State, x: Input)
    requires x == Smooth(s.targets) && s.targets != [] && s.repoMap == map[] && forall t :: t in s.targets ==> t.tags == {}
    ensures var s' := CheckIdempotency(s, x).state; s'.pending == Names(s.targets) != [] && Untagged(s')
  {
    var s' := CheckIdempotency(s, x).state;
    NothingSkipped(s.targets, "");
    assert Names(s.targets) != [];
    forall r | r in s'.pending && r in s'.repoMap
      ensures s'.repoMap[r].tags == {}
    {
      NothingSkipped(s.targets, r);
    }
  }

  lemma {:induction false} IntakeRuns(env: Env, c: Config, targets: seq<Target>) returns (d: Config)
    requires Inv(env, c) && BeforeIntake(c.node) && targets != [] && forall t :: t in targets ==> t.tags == {}
    requires c.node.CheckRepositoryIdempotency? ==> c.s.targets == targets
    ensures Leads(env, c, Smooth(targets), 5 - c.steps, d)
    ensures Safe(env, d) && d.node.DetectMavenProfile? && d.s.pending == d.queue == Names(targets) && Untagged(d.s) && d.steps == 5
    decreases Rank(c)
  {
    assert Blank(c);
    hide TickMove, Inv, Safe, Untagged, Blank;
    var x := Smooth(targets);
    var c' := TickMove(env, c, x);
    assert Runnable(c);
    if c.node.CheckRepositoryIdempotency? {
      IntakeCompletes(env, c, x);
      d := c';
      assert Leads(env, c', x, 0, d);
    } else {
      IntakeAdvances(env, c, x);
      d := IntakeRuns(env, c', targets);
    }
  }

  /** An undisturbed run over the given repositories executes 5 + 9 n nodes, n being the number of
      distinct ones. */
  lemma SmoothRunLength(env: Env, targets: seq<Target>) returns (d: Config)
    requires !env.dryRun && targets != [] && forall t :: t in targets ==> t.tags == {}
    ensures var n := |Distinct(Names(targets))|;
      && Leads(env, Start, Smooth(targets), 5 + 9 * n, d)
      && d.node.End? && d.s.status.Completed? && d.steps == 5 + 9 * n
  {
    StartHolds(env);
    hide Inv, Safe, Leads, Untagged;
    var c := IntakeRuns(env, Start, targets);
    assert Names(targets) != [];
    d := FinishQueueSmoothly(env, c, Smooth(targets));
    LeadsOn(env, Start, Smooth(targets), 5, c, 9 * |Distinct(Names(targets))|, d);
  }

  /* ---------- The longest run ---------- */

  const FailedTest: Check := Check(NameWords(false, true, false, false), CheckFailed, DetailPhrases(false, false, false, false))

  // As before, but the tests fail.
  function Failing(targets: seq<Target>): Input {
    Smooth(targets).(validationStatus := CheckFailed, checks := [FailedTest])
  }

  // Before validation on the straight line, with this many retries taken.
  predicate AtValidation(c: Config) {
    c.node.ValidateRemediation? && LineFacts(c.node, c.s)
  }

  // The same repositories are left to work on.
  predicate SameWork(c: Config, d: Config) {
    d.s.pending == c.s.pending && d.s.repoMap == c.s.repoMap && d.queue == c.queue
  }

  lemma {:induction false} SmoothIsInvocation(env: Env, c: Config, x: Input, k: nat, d: Config)
    requires Leads(env, c, x, k, d)
    ensures Invocation(env, c, k, d)
    decreases k
  {
    hide TickMove, Runnable;
    if k == 0 {
      InvocationNone(env, c, d);
    } else {
      SmoothIsInvocation(env, TickMove(env, c, x), x, k - 1, d);
      InvocationMore(env, c, x, k - 1, d);
    }
  }

  lemma {:induction false} ToValidation(env: Env, c: Config, targets: seq<Target>) returns (d: Config)
    requires Safe(env, c) && LineFacts(c.node, c.s) && Untagged(c.s) && !c.node.PublishRemediation?
    ensures Invocation(env, c, LineLeft(c.node) - 2, d) && Safe(env, d) && AtValidation(d)
    ensures SameWork(c, d) && d.s.retryCount == c.s.retryCount
    decreases LineLeft(c.node)
  {
    hide TickMove, Frame, AtNode, Smooth, Measure, Untagged;
    var x := Smooth(targets);
    if c.node.ValidateRemediation? {
      d := c;
      InvocationNone(env, c, c);
    } else {
      OnLine(c);
      SmoothTargets(targets);
      LineAdvances(env, c, x);
      TickSafe(env, c, x);
      var c' := TickMove(env, c, x);
      StillUntagged(c.s, c'.s);
      d := ToValidation(env, c', targets);
      hide LineFacts, Invocation;
      InvocationMore(env, c, x, LineLeft(c'.node) - 2, d);
    }
  }

  lemma SmoothTargets(targets: seq<Target>)
    ensures Smooth(targets) == Smooth(Smooth(targets).targets)
  {
  }

  lemma OnLine(c: Config)
    requires LineFacts(c.node, c.s) && c.fault.None?
    ensures Runnable(c) && (c.node.ValidateRemediation? || c.node.PublishRemediation? || LineLeft(NextOnLine(c.node)) == LineLeft(c.node) - 1 >= 2)
  {
  }

  lemma StillUntagged(s: State, s': State)
    requires Untagged(s) && s'.pending == s.pending && s'.repoMap == s.repoMap
    ensures Untagged(s')
  {
  }

  // The tests fail: validation hands over to the failure node.
  lemma FailingTick(env: Env, c: Config, targets: seq<Target>)
    requires Safe(env, c) && AtValidation(c)
    ensures var c' := TickMove(env, c, Failing(targets));
      && Runnable(c) && Safe(env, c') && c'.node.HandleValidationFailure? && SameWork(c, c') && c'.s.retryCount == c.s.retryCount
      && c'.s.route == c.s.route && c'.s.validations != [] && Last(c'.s.validations).checks == [FailedTest]
  {
    hide Frame, LogView, OwnedBy, TickMove;
    var x := Failing(targets);
    assert AtValidate(env, c.s, c.log);
    TickSafe(env, c, x);
    ValidateNode(env, c.s, c.log, c.queue, x);
    hide AtValidate, AtNode, Planned;
    Lands(env, c, x, HandleValidationFailure);
  }

  lemma FailedTestIsRetryable(errors: seq<WorkflowError>, results: seq<ValidationResult>)
    requires results != [] && Last(results).checks == [FailedTest]
    ensures RetryableResult(errors, results)
  {
    assert [FailedTest][0].status == CheckFailed;
    assert RecoverableChecks([FailedTest]);
    RetryableResultExactly(errors, results);
  }

  // Handling and classifying the failure keep the route and what is queued.
  lemma FailureKeeps(env: Env, c: Config, x: Input, y: Input)
    requires Safe(env, c) && c.node.HandleValidationFailure? && c.s.route == Some(RouteDecision(SimpleUpdate, false))
    requires c.s.validations != [] && Last(c.s.validations).checks == [FailedTest]
    ensures var d := TickMove(env, TickMove(env, c, x), y);
      && Runnable(c) && Runnable(TickMove(env, c, x)) && Safe(env, TickMove(env, c, x)) && Safe(env, d)
      && SameWork(c, d) && d.s.route == c.s.route
      && d.node == (if c.s.retryCount < RetryCap(env) then RemediateSimple else Escalate)
      && (c.s.retryCount < RetryCap(env) ==> d.s.retryCount == c.s.retryCount + 1)
  {
    hide Safe, TickMove, RetryCap, RetryableResult;
    FailedTestIsRetryable(c.s.errors, c.s.validations);
    RetryScheduled(env, c, x, y);
    HandleLands(env, c, x);
    NotFaulty(env, c);
    var c' := TickMove(env, c, x);
    NotFaulty(env, c');
    TickSafe(env, c', y);
    TickFollows(env, c', y);
    HandleKeeps(c.s);
    ClassifyKeeps(env, c'.s);
    ClassifyRetries(env, c', y);
  }

  lemma NotFaulty(env: Env, c: Config)
    requires Safe(env, c) && (c.node.HandleValidationFailure? || c.node.ClassifyFailure?)
    ensures Runnable(c) && c.fault.None? && !BeforeIntake(c.node)
  {
    hide Frame, AtNode;
  }

  lemma HandleKeeps(s: State)
    ensures HandleFailure(s).Done? ==>
      var s' := HandleFailure(s).state;
      s'.pending == s.pending && s'.repoMap == s.repoMap && s'.route == s.route && s'.retryCount == s.retryCount
  {
    hide ErrorOfResult;
  }

  lemma ClassifyKeeps(env: Env, s: State)
    ensures var s' := ClassifyUpdate(env, s).state;
      s'.pending == s.pending && s'.repoMap == s.repoMap && s'.route == s.route
  {
    hide Classify, CanRetry, RetryNode;
  }

  lemma ClassifyRetries(env: Env, c: Config, y: Input)
    requires Safe(env, c) && c.node.ClassifyFailure?
    ensures Exec(env, c.node, c.s, y) == ClassifyUpdate(env, c.s)
    ensures TickMove(env, c, y).node != Escalate ==> ClassifyUpdate(env, c.s).state.retryCount == c.s.retryCount + 1
  {
    ClassifyLands(env, c, y);
    ClassifyCounts(env, c);
    hide TickMove, Safe, CanRetry, RetryNode, ClassifyUpdate;
  }

  // The first three of them: the failure is classified, and the lane runs again.
  lemma FailToLane(env: Env, c: Config, targets: seq<Target>) returns (d: Config)
    requires Safe(env, c) && AtValidation(c) && c.s.retryCount < RetryCap(env)
    ensures Invocation(env, c, 3, d) && Safe(env, d) && d.node.RemediateSimple? && LineFacts(d.node, d.s) && SameWork(c, d)
    ensures d.s.retryCount == c.s.retryCount + 1
  {
    hide *;
    var x, y := Failing(targets), Smooth(targets);
    LineRouteKnown(c);
    FailingTick(env, c, targets);
    var c1 := TickMove(env, c, x);
    FailureKeeps(env, c1, y, y);
    d := TickMove(env, TickMove(env, c1, y), y);
    LaneOnLine(d);
    SameWorkOn(c, c1, d);
    ThreeTicks(env, c, x, y, y, d);
  }

  lemma LineRouteKnown(c: Config)
    requires AtValidation(c)
    ensures c.s.route == Some(RouteDecision(SimpleUpdate, false))
  {
  }

  lemma LaneOnLine(c: Config)
    requires c.node.RemediateSimple? && c.s.route == Some(RouteDecision(SimpleUpdate, false))
    ensures LineFacts(c.node, c.s)
  {
  }

  lemma ThreeTicks(env: Env, c: Config, x: Input, y: Input, z: Input, d: Config)
    requires Runnable(c) && Runnable(TickMove(env, c, x)) && Runnable(TickMove(env, TickMove(env, c, x), y))
    requires d == TickMove(env, TickMove(env, TickMove(env, c, x), y), z)
    ensures Invocation(env, c, 3, d)
  {
    hide *;
    InvocationNone(env, d, d);
    InvocationMore(env, TickMove(env, TickMove(env, c, x), y), z, 0, d);
    InvocationMore(env, TickMove(env, c, x), y, 1, d);
    InvocationMore(env, c, x, 2, d);
  }

  // The last two: back to validation.
  lemma LaneToValidation(env: Env, c: Config, targets: seq<Target>) returns (d: Config)
    requires Safe(env, c) && c.node.RemediateSimple? && LineFacts(c.node, c.s)
    ensures Invocation(env, c, 2, d) && Safe(env, d) && AtValidation(d) && SameWork(c, d) && d.s.retryCount == c.s.retryCount
  {
    var y := Smooth(targets);
    SmoothTargets(targets);
    hide TickMove, Safe, Smooth, Invocation, Runnable;
    LineSimple(env, c, y);
    OnLineSafe(env, c);
    TickSafe(env, c, y);
    var c' := TickMove(env, c, y);
    OnLineSafe(env, c');
    LinePreflight(env, c', y);
    TickSafe(env, c', y);
    d := TickMove(env, c', y);
    InvocationNone(env, d, d);
    InvocationMore(env, c', y, 0, d);
    InvocationMore(env, c, y, 1, d);
  }

  /** One retry: five node executions from a validation to the next. */
  lemma FailOnce(env: Env, c: Config, targets: seq<Target>) returns (d: Config)
    requires Safe(env, c) && AtValidation(c) && c.s.retryCount < RetryCap(env)
    ensures Invocation(env, c, 5, d) && Safe(env, d) && AtValidation(d) && SameWork(c, d) && d.s.retryCount == c.s.retryCount + 1
  {
    hide *;
    var e := FailToLane(env, c, targets);
    d := LaneToValidation(env, e, targets);
    InvocationOn(env, c, 3, e, 2, d);
    SameWorkOn(c, e, d);
  }

  lemma OnLineSafe(env: Env, c: Config)
    requires Safe(env, c) && LineFacts(c.node, c.s)
    ensures Runnable(c)
  {
    OnLine(c);
    hide Frame, AtNode;
  }

  lemma {:induction false} FailAll(env: Env, c: Config, targets: seq<Target>) returns (d: Config)
    requires Safe(env, c) && AtValidation(c) && c.s.retryCount <= RetryCap(env)
    ensures Invocation(env, c, 5 * (RetryCap(env) - c.s.retryCount), d) && Safe(env, d) && AtValidation(d) && SameWork(c, d)
    ensures d.s.retryCount == RetryCap(env)
    decreases RetryCap(env) - c.s.retryCount
  {
    hide Safe, RetryCap, AtValidation, Invocation;
    if c.s.retryCount == RetryCap(env) {
      d := c;
      InvocationNone(env, c, c);
    } else {
      var e := FailOnce(env, c, targets);
      d := FailAll(env, e, targets);
      InvocationOn(env, c, 5, e, 5 * (RetryCap(env) - e.s.retryCount), d);
    }
  }

  // The tests fail once too often: four node executions to the end.
  lemma GiveUp(env: Env, c: Config, targets: seq<Target>) returns (d: Config)
    requires Safe(env, c) && AtValidation(c) && c.s.retryCount == RetryCap(env)
    ensures Invocation(env, c, 4, d) && Safe(env, d) && d.node.End? && d.queue == c.queue
  {
    var x, y := Failing(targets), Smooth(targets);
    FailingTick(env, c, targets);
    var c1 := TickMove(env, c, x);
    assert c.s.route == Some(RouteDecision(SimpleUpdate, false));
    FailureKeeps(env, c1, y, y);
    var c2 := TickMove(env, c1, y);
    var c3 := TickMove(env, c2, y);
    EscalateEnds(env, c3, y);
    d := TickMove(env, c3, y);
    hide *;
    InvocationNone(env, d, d);
    InvocationMore(env, c3, y, 0, d);
    InvocationMore(env, c2, y, 1, d);
    InvocationMore(env, c1, y, 2, d);
    InvocationMore(env, c, x, 3, d);
  }

  lemma EscalateEnds(env: Env, c: Config, y: Input)
    requires Safe(env, c) && c.node.Escalate?
    ensures Runnable(c) && Safe(env, TickMove(env, c, y)) && TickMove(env, c, y).node.End? && TickMove(env, c, y).queue == c.queue
  {
    hide Frame, AtNode, TickMove, Exec, Route;
    assert Runnable(c);
    hide Runnable, Safe;
    TickSafe(env, c, y);
    TickFollows(env, c, y);
  }

  // Validation passes after all, and publication, or skipping it, finishes the repository.
  lemma FinishAfterAll(env: Env, c: Config, targets: seq<Target>) returns (d: Config)
    requires Safe(env, c) && AtValidation(c) && Untagged(c.s)
    ensures Invocation(env, c, 2, d) && Safe(env, d) && HeadFinished(c.s, d.s) && d.s.repoMap == c.s.repoMap && d.queue == c.queue
    ensures d.node == if d.s.pending != [] then DetectMavenProfile else End
  {
    if env.dryRun {
      d := SkipAfterAll(env, c, targets);
    } else {
      SmoothTargets(targets);
      ValidationOnLine(c);
      hide *;
      d := FinishRepositorySmoothly(env, c, Smooth(targets));
      SmoothIsInvocation(env, c, Smooth(targets), 2, d);
    }
  }

  lemma ValidationOnLine(c: Config)
    requires AtValidation(c)
    ensures LineFacts(c.node, c.s) && LineLeft(c.node) == 2
  {
  }

  lemma SkipAfterAll(env: Env, c: Config, targets: seq<Target>) returns (d: Config)
    requires Safe(env, c) && AtValidation(c) && env.dryRun
    ensures Invocation(env, c, 2, d) && Safe(env, d) && HeadFinished(c.s, d.s) && d.s.repoMap == c.s.repoMap && d.queue == c.queue
    ensures d.node == if d.s.pending != [] then DetectMavenProfile else End
  {
    hide *;
    var x := Smooth(targets);
    PassingTick(env, c, targets);
    var c' := TickMove(env, c, x);
    SkippingTick(env, c', x);
    d := TickMove(env, c', x);
    HeadFinishedAs(c.s, c'.s, d.s);
    InvocationNone(env, d, d);
    InvocationMore(env, c', x, 0, d);
    InvocationMore(env, c, x, 1, d);
  }

  lemma PassingTick(env: Env, c: Config, targets: seq<Target>)
    requires Safe(env, c) && AtValidation(c) && env.dryRun
    ensures var c' := TickMove(env, c, Smooth(targets));
      && Runnable(c) && Safe(env, c') && c'.node.SkipPublishForDryRun?
      && c'.s.pending == c.s.pending && c'.s.repoMap == c.s.repoMap && c'.queue == c.queue
  {
    hide Frame, LogView, OwnedBy, TickMove;
    var x := Smooth(targets);
    assert AtValidate(env, c.s, c.log);
    TickSafe(env, c, x);
    ValidateNode(env, c.s, c.log, c.queue, x);
    hide AtValidate, AtNode, Planned;
    Lands(env, c, x, SkipPublishForDryRun);
  }

  lemma SkippingTick(env: Env, c: Config, x: Input)
    requires Safe(env, c) && c.node.SkipPublishForDryRun?
    ensures var d := TickMove(env, c, x);
      && Runnable(c) && Safe(env, d) && HeadFinished(c.s, d.s) && d.s.repoMap == c.s.repoMap && d.queue == c.queue
      && d.node == (if d.s.pending != [] then DetectMavenProfile else End)
  {
    assert Runnable(c);
    hide Frame, HeadFinished, Runnable, TickMove, LeftIn, AtSkip;
    TickSafe(env, c, x);
    SkipNode(env, c.s, c.log, c.queue);
    Isolation.SkipKeepsMap(c.s);
    TickFollows(env, c, x);
    hide SkipPublish;
    FinishesDrop(env, c, x, SkipPublish(c.s));
  }

  lemma FreshRetries(env: Env, c: Config)
    requires Safe(env, c) && c.node.DetectMavenProfile?
    ensures c.s.retryCount == 0 && c.s.pending != [] && LineFacts(c.node, c.s)
  {
    hide Frame;
  }

  // Node executions over n repositories, from the first one on.
  function Worst(env: Env, n: nat): nat {
    2 + n * Cost(env)
  }

  lemma WorstSteps(env: Env, n: nat)
    ensures Worst(env, 1) == 7 + 5 * RetryCap(env) + 4
    ensures Worst(env, n + 1) == 7 + 5 * RetryCap(env) + 2 + Worst(env, n)
  {
    assert (n + 1) * Cost(env) == n * Cost(env) + Cost(env);
    hide RetryCap;
  }

  // All retries of one repository.
  lemma Exhaust(env: Env, c: Config, targets: seq<Target>) returns (d: Config)
    requires Safe(env, c) && c.node.DetectMavenProfile? && Untagged(c.s)
    ensures Invocation(env, c, 7 + 5 * RetryCap(env), d) && Safe(env, d) && AtValidation(d) && SameWork(c, d)
    ensures d.s.retryCount == RetryCap(env) && c.s.pending != []
  {
    hide *;
    FreshRetries(env, c);
    SevenLeft(c);
    var e := ToValidation(env, c, targets);
    d := FailAll(env, e, targets);
    InvocationOn(env, c, 7, e, 5 * RetryCap(env), d);
    SameWorkOn(c, e, d);
  }

  lemma SevenLeft(c: Config)
    requires c.node.DetectMavenProfile?
    ensures LineLeft(c.node) == 9 && !c.node.PublishRemediation?
  {
  }

  lemma SameWorkOn(c: Config, d: Config, e: Config)
    requires SameWork(c, d) && SameWork(d, e)
    ensures SameWork(c, e)
  {
  }

  lemma {:induction false} WorstQueue(env: Env, c: Config, targets: seq<Target>) returns (d: Config)
    requires Safe(env, c) && c.node.DetectMavenProfile? && Untagged(c.s)
    ensures Invocation(env, c, Worst(env, |Distinct(c.s.pending)|), d) && d.node.End? && d.queue == c.queue
    decreases |c.s.pending|
  {
    hide Safe, AtValidation, Invocation, RetryCap, Untagged, HeadFinished, Worst, Distinct, Without;
    var f := Exhaust(env, c, targets);
    WithoutHead(c.s.pending);
    var n := |Distinct(Without(c.s.pending, c.s.pending[0]))|;
    WorstSteps(env, n);
    if Without(c.s.pending, c.s.pending[0]) == [] {
      d := GiveUp(env, f, targets);
      InvocationOn(env, c, 7 + 5 * RetryCap(env), f, 4, d);
    } else {
      StillUntagged(c.s, f.s);
      var g := FinishAfterAll(env, f, targets);
      NextUntagged(f.s, g.s);
      d := WorstQueue(env, g, targets);
      InvocationOn(env, c, 7 + 5 * RetryCap(env), f, 2, g);
      InvocationOn(env, c, 7 + 5 * RetryCap(env) + 2, g, Worst(env, n), d);
    }
  }

  lemma WithoutHead(s: seq<string>)
    requires s != []
    ensures |Distinct(s)| == 1 + |Distinct(Without(s, s[0]))| && |Without(s, s[0])| < |s|
    ensures Without(s, s[0]) == [] ==> |Distinct(s)| == 1
  {
    assert Without(s, s[0]) == Without(s[1..], s[0]);
  }

  lemma NextUntagged(s: State, s': State)
    requires Untagged(s) && HeadFinished(s, s') && s'.repoMap == s.repoMap
    ensures Untagged(s') && s'.pending == Without(s.pending, s.pending[0])
  {
    hide SelectPostDelivery;
    WithoutFewer(s.pending, s.pending[0]);
  }

  lemma {:induction false} WithoutFewer(s: seq<string>, gone: string)
    ensures forall x :: x in Without(s, gone) ==> x in s
  {
    if s != [] {
      WithoutFewer(s[1..], gone);
    }
  }

  /** The bound is met: every repository but the last fails its tests as often as the budgets allow and
      then passes, the last one fails once more and is escalated. */
  lemma WorstRun(env: Env, targets: seq<Target>) returns (d: Config)
    requires targets != [] && forall t :: t in targets ==> t.tags == {}
    ensures Invocation(env, Start, 7 + |Distinct(Names(targets))| * (9 + 5 * RetryCap(env)), d)
    ensures d.node.End? && d.queue == Names(targets)
  {
    StartHolds(env);
    hide Inv, Safe, Leads, Untagged, Invocation, RetryCap;
    var c := IntakeRuns(env, Start, targets);
    SmoothIsInvocation(env, Start, Smooth(targets), 5, c);
    d := WorstQueue(env, c, targets);
    InvocationOn(env, Start, 5, c, Worst(env, |Distinct(Names(targets))|), d);
  }

  /* ---------- The limit, exactly ---------- */

  // n repositories with different names.
  function Fleet(n: nat): seq<Target>
    decreases n
  {
    if n == 0 then [] else Fleet(n - 1) + [Target(seq(n, _ => 'r'), {})]
  }

  lemma {:induction false} FleetIs(n: nat)
    ensures |Fleet(n)| == n && |Names(Fleet(n))| == n && NoDuplicates(Names(Fleet(n)))
    ensures forall i :: 0 <= i < n ==> |Names(Fleet(n))[i]| == i + 1
    ensures forall t :: t in Fleet(n) ==> t.tags == {}
  {
    if n > 0 {
      FleetIs(n - 1);
      assert Fleet(n)[..n - 1] == Fleet(n - 1);
      NamesGrow(Fleet(n - 1), Last(Fleet(n)));
      hide Names;
    }
  }

  lemma NamesGrow(targets: seq<Target>, t: Target)
    ensures Names(targets + [t]) == Names(targets) + [t.repository]
  {
    assert (targets + [t])[..|targets|] == targets;
  }

  // No invocation over n repositories, from anywhere in a run, executes more nodes than the limit.
  ghost predicate NeverOver(env: Env, n: nat, limit: nat) {
    forall c: Config, k: nat, d: Config ::
      Reachable(env, c) && Invocation(env, c, k, d) && |Distinct(d.queue)| == n ==> k <= limit
  }

  /** For all budgets and any limit: no invocation over n repositories goes over the limit if and only if
      7 + n (9 + 5 R) does not. */
  lemma LimitExactly(env: Env, n: nat, limit: nat)
    requires n > 0
    ensures NeverOver(env, n, limit) <==> 7 + n * (9 + 5 * RetryCap(env)) <= limit
  {
    var worst := 7 + n * (9 + 5 * RetryCap(env));
    FleetIs(n);
    DistinctOfNoDuplicates(Names(Fleet(n)));
    var d := WorstRun(env, Fleet(n));
    StartReachable(env);
    hide Invocation, Reachable, RetryCap, Distinct, Fleet;
    if NeverOver(env, n, limit) {
      assert worst <= limit;
    }
    if worst <= limit {
      forall c: Config, k: nat, e: Config | Reachable(env, c) && Invocation(env, c, k, e) && |Distinct(e.queue)| == n
        ensures k <= limit
      {
        InvocationBound(env, c, k, e);
      }
    }
  }

  lemma StartReachable(env: Env)
    ensures Reachable(env, Start) && Start.steps == 0
  {
    assert Start == RunFrom(env, Start, []);
  }

  /** With the default budgets the recursion limit of 64 is never reached if and only if there are at
      most two repositories. */
  lemma DefaultLimitExactly(env: Env, n: nat)
    requires n > 0 && env.maxRetries == 3 && env.maxTotal == 10
    ensures NeverOver(env, n, RECURSION_LIMIT) <==> n <= 2
  {
    hide NeverOver;
    LimitExactly(env, n, RECURSION_LIMIT);
    assert RetryCap(env) == 3;
    assert 7 + n * 24 <= RECURSION_LIMIT <==> n <= 2;
  }

  lemma {:induction false} InvocationCounts(env: Env, c: Config, k: nat, d: Config)
    requires Reachable(env, c) && Invocation(env, c, k, d)
    ensures Reachable(env, d) && d.steps == c.steps + k
    decreases k
  {
    hide TickMove, Reachable, Runnable;
    if k == 0 {
      InvocationNone(env, c, d);
    } else {
      var x := InvocationFirst(env, c, k, d);
      TickReaches(env, c, x);
      InvocationCounts(env, TickMove(env, c, x), k - 1, d);
    }
  }

  lemma TickReaches(env: Env, c: Config, x: Input)
    requires Reachable(env, c) && Runnable(c)
    ensures Reachable(env, TickMove(env, c, x)) && TickMove(env, c, x).steps == c.steps + 1
  {
    TickCounts(env, c, x);
    hide TickMove;
    var moves: seq<Move> :| c == RunFrom(env, Start, moves);
    RunExtends(env, Start, moves, Tick(x));
    assert Step(env, c, Tick(x)) == TickMove(env, c, x);
  }

  lemma TickCounts(env: Env, c: Config, x: Input)
    ensures TickMove(env, c, x).steps == c.steps + 1
  {
    hide Exec, Route, Successors;
  }

  // No run over n repositories, however often it is resumed, executes more nodes than the limit.
  ghost predicate NeverLonger(env: Env, n: nat, limit: nat) {
    forall c: Config :: Reachable(env, c) && |Distinct(c.queue)| == n ==> c.steps <= limit
  }

  /** The same holds of whole runs, all invocations of a thread taken together: with the default budgets
      64 node executions always suffice if and only if there are at most two repositories. */
  lemma DefaultRunExactly(env: Env, n: nat)
    requires n > 0 && env.maxRetries == 3 && env.maxTotal == 10
    ensures NeverLonger(env, n, RECURSION_LIMIT) <==> n <= 2
  {
    assert RetryCap(env) == 3;
    hide Reachable, RetryCap, Distinct;
    var d := LongestRun(env, n);
    if n <= 2 {
      forall c: Config | Reachable(env, c) && |Distinct(c.queue)| == n
        ensures c.steps <= RECURSION_LIMIT
      {
        StepsBounded(env, c);
      }
    }
  }

  lemma LongestRun(env: Env, n: nat) returns (d: Config)
    requires n > 0
    ensures Reachable(env, d) && |Distinct(d.queue)| == n && d.steps == 7 + n * (9 + 5 * RetryCap(env))
  {
    hide *;
    FleetIs(n);
    DistinctOfNoDuplicates(Names(Fleet(n)));
    d := WorstRun(env, Fleet(n));
    StartReachable(env);
    InvocationCounts(env, Start, 7 + n * (9 + 5 * RetryCap(env)), d);
  }
}
