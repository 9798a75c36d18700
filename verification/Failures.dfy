/**
 What a failure leads to, over whole runs: when a retry is scheduled, and what a failed delivery is
 called (nodes/classify_failure.py, nodes/delivery.py).
 */
module Failures {
  import opened Collections
  import opened Verdicts
  import opened LiveValidation
  import opened Workflow
  import opened Invariant
  import opened Preservation
  import opened Steps

  /* ---------- Failed validations ---------- */

  // The node that runs the lane of a strategy again.
  function LaneToRetry(strategy: Strategy): Node {
    match strategy
    case SimpleUpdate => RemediateSimple
    case TransitiveOverride => RemediateTransitive
    case ComplexRefactor => ExecuteComplexScaffold
    case UnknownRoute => Escalate
  }

  function LaneAgain(s: State): Node
    requires s.route.Some?
  {
    LaneToRetry(s.route.value.strategy)
  }

  lemma ClassifyIgnoresRepository(
    errors: seq<WorkflowError>, e: WorkflowError, repository: Option<string>, results: seq<ValidationResult>)
    ensures Classify(errors + [e.(repository := repository)], results) == Classify(errors + [e], results)
  {
    var one, other := errors + [e.(repository := repository)], errors + [e];
    assert Last(one).code == Last(other).code && Last(one).recoverable == Last(other).recoverable;
    hide ClassOfChecks;
  }

  // The budgets that are left, as one bound.
  lemma BudgetLeft(env: Env, s: State)
    requires Counted(env, s)
    ensures s.retryCount < RetryCap(env) <==> s.totalAttempts + 1 < env.maxTotal && s.retryCount < env.maxRetries
  {
  }

  // What the node that handles a failed validation leaves to the classification.
  lemma HandledFailure(env: Env, s: State, log: seq<Entry>)
    requires AtHandleFailure(env, s, log)
    ensures var s' := HandleFailure(s).state; var e := ErrorOfResult(Last(s.validations)).(repository := s.working);
      && HandleFailure(s).Done? && s'.validations == s.validations && s.validations != []
      && s'.errors == s.errors + [e] && Last(s'.errors) == e && !IsDeliveryCode(e.code)
      && s'.route == s.route && s.route.Some? && !s.route.value.strategy.UnknownRoute?
      && s'.retryCount == s.retryCount && s'.totalAttempts == s.totalAttempts && Counted(env, s)
  {
    CodeOfChecksIsValidation(Last(s.validations).checks);
    hide CodeOfChecks, RecoverableChecks, LogView, OwnedBy;
  }

  // The retry decision that follows a failed validation.
  lemma CanRetryExactly(env: Env, s: State, log: seq<Entry>)
    requires AtHandleFailure(env, s, log)
    ensures s.validations != [] && s.route.Some?
    ensures var s' := HandleFailure(s).state;
      && (CanRetry(env, s') <==> RetryableResult(s.errors, s.validations) && s.retryCount < RetryCap(env))
      && RetryNode(s') == Some(LaneAgain(s))
  {
    HandledFailure(env, s, log);
    ClassifyIgnoresRepository(s.errors, ErrorOfResult(Last(s.validations)), s.working, s.validations);
    BudgetLeft(env, s);
    assert Last(s.errors + [ErrorOfResult(Last(s.validations))]) == ErrorOfResult(Last(s.validations));
    hide HandleFailure, AtHandleFailure, Classify, ErrorOfResult, RetryCap, IsDeliveryCode, IsRetryableClass;
  }

  lemma HandleLands(env: Env, c: Config, x: Input)
    requires Safe(env, c) && c.node.HandleValidationFailure?
    ensures TickMove(env, c, x) == Landing(c, ClassifyFailure, HandleFailure(c.s)) && HandleFailure(c.s).Done?
    ensures Safe(env, TickMove(env, c, x))
  {
    TickHandleFailure(env, c, x);
    HandledFailure(env, c.s, c.log);
    hide HandleFailure, Frame, AtHandleFailure, AtClassify;
    Lands(env, c, x, ClassifyFailure);
  }

  lemma ClassifyLands(env: Env, c: Config, x: Input)
    requires Safe(env, c) && c.node.ClassifyFailure?
    ensures TickMove(env, c, x).node == if CanRetry(env, c.s) then RetryNode(c.s).value else Escalate
  {
    hide Safe, Classify;
    var n := if CanRetry(env, c.s) then RetryNode(c.s).value else Escalate;
    RetryDecides(env, c.s);
    ClassifyGoesOn(env, c, x, n);
    hide ClassifyUpdate, CanRetry, RetryNode, TickMove, Exec, Route, Successors, SelectFailure;
    NotBeforeIntake(c);
    Lands(env, c, x, n);
  }

  lemma NotBeforeIntake(c: Config)
    requires c.node.ClassifyFailure?
    ensures !BeforeIntake(c.node)
  {
  }

  lemma RetryDecides(env: Env, s: State)
    ensures ClassifyUpdate(env, s).Done?
    ensures SelectFailure(ClassifyUpdate(env, s).state) == Goto(if CanRetry(env, s) then RetryNode(s).value else Escalate)
  {
    hide Classify, RetryNode;
    assert CanRetry(env, s) ==> RetryNode(s).Some?;
    hide CanRetry;
  }

  lemma ClassifyGoesOn(env: Env, c: Config, x: Input, n: Node)
    requires c.node.ClassifyFailure? && n == if CanRetry(env, c.s) then RetryNode(c.s).value else Escalate
    ensures Exec(env, c.node, c.s, x) == ClassifyUpdate(env, c.s) && n in Successors(c.node)
    ensures Route(env, c.node, ClassifyUpdate(env, c.s).state) == SelectFailure(ClassifyUpdate(env, c.s).state)
  {
    hide ClassifyUpdate, SelectFailure, Classify;
  }

  lemma SafeReachable(env: Env, c: Config)
    requires Reachable(env, c) && !BeforeIntake(c.node)
    ensures Safe(env, c)
  {
    ReachableHolds(env, c);
    hide Frame, AtNode;
  }

  /** After every failed validation of every run: the lane runs again if and only if all failed checks
      are test failures or transient scan failures, the first of them is not also a compile check
      (unless it is transient), and budget remains; otherwise the failure is escalated. */
  lemma RetryScheduledExactly(env: Env, c: Config, x: Input, y: Input)
    requires Reachable(env, c) && c.node.HandleValidationFailure?
    ensures c.s.validations != [] && c.s.route.Some?
    ensures var next := TickMove(env, TickMove(env, c, x), y).node; var checks := Last(c.s.validations).checks;
      && TickMove(env, c, x).node.ClassifyFailure?
      && next == (if RetryableResult(c.s.errors, c.s.validations) && c.s.retryCount < RetryCap(env) then LaneAgain(c.s) else Escalate)
      && (next == LaneAgain(c.s) <==>
            && RecoverableChecks(checks)
            && (var first := checks[FirstFailed(checks)]; IsTransient(first) || !first.name.compile)
            && c.s.retryCount < RetryCap(env))
  {
    SafeReachable(env, c);
    RetryScheduled(env, c, x, y);
    hide Safe, TickMove, RetryCap, RetryableResult, RecoverableChecks, FirstFailed, IsTransient;
    RetryableResultExactly(c.s.errors, c.s.validations);
    LaneIsNoEscalation(env, c);
  }

  lemma LaneIsNoEscalation(env: Env, c: Config)
    requires Safe(env, c) && c.node.HandleValidationFailure?
    ensures c.s.route.Some? && LaneAgain(c.s) != Escalate
  {
    hide HandleFailure, Frame, AtHandleFailure;
    HandledFailure(env, c.s, c.log);
  }

  lemma RetryScheduled(env: Env, c: Config, x: Input, y: Input)
    requires Safe(env, c) && c.node.HandleValidationFailure?
    ensures c.s.validations != [] && c.s.route.Some? && TickMove(env, c, x).node.ClassifyFailure?
    ensures TickMove(env, TickMove(env, c, x), y).node ==
      if RetryableResult(c.s.errors, c.s.validations) && c.s.retryCount < RetryCap(env) then LaneAgain(c.s) else Escalate
  {
    assert AtHandleFailure(env, c.s, c.log);
    hide Safe, TickMove, HandleFailure, CanRetry, RetryNode, RetryableResult, RetryCap, AtHandleFailure;
    CanRetryExactly(env, c.s, c.log);
    HandledFailure(env, c.s, c.log);
    HandleLands(env, c, x);
    ClassifyLands(env, TickMove(env, c, x), y);
  }

  /** When the failed checks are those of the live adapter: the lane runs again if and only if every
      failed one is a test failure or a transient scan failure, and budget remains. */
  lemma LiveRetryScheduledExactly(env: Env, c: Config, x: Input, y: Input, live: LiveInput)
    requires Reachable(env, c) && c.node.HandleValidationFailure?
    requires c.s.validations != [] && Last(c.s.validations).checks == LiveChecks(live)
    ensures c.s.route.Some?
    ensures TickMove(env, TickMove(env, c, x), y).node ==
      if RecoverableChecks(LiveChecks(live)) && c.s.retryCount < RetryCap(env) then LaneAgain(c.s) else Escalate
  {
    RetryScheduledExactly(env, c, x, y);
    var result := LiveResult("", live);
    assert Last([result]) == result && result.checks == LiveChecks(live);
    LiveRetryExactly("", live, []);
    RetryableResultExactly([], [result]);
    RetryableResultExactly(c.s.errors, c.s.validations);
    hide TickMove, RetryableResult, RecoverableChecks, FirstFailed, RetryCap, LiveChecks, LiveResult;
  }

  /* ---------- Failed deliveries ---------- */

  // What the publication node leaves to the classification when a stage failed.
  lemma FailedDelivery(env: Env, c: Config, x: Input)
    requires Safe(env, c) && c.node.PublishRemediation?
    ensures c.s.working.Some?
    ensures var d := Deliver(c.s, c.s.working.value, x); d.failure.Some? ==>
      var o := Publish(c.s, x);
      && o.Done? && o.state.errors != []
      && Last(o.state.errors) == WorkflowError(DeliveryErrorCode(d), d.failure.value, c.s.working)
      && o.state.retryCount == c.s.retryCount && o.state.totalAttempts == c.s.totalAttempts && Counted(env, c.s)
      && SelectPostDelivery(o.state) == Goto(ClassifyFailure)
  {
    assert DeliveryReady(env, c.s, c.log);
    hide Frame, Safe, AtNode;
    ReadyToDeliver(env, c.s, c.log);
    assert Counted(env, c.s);
    hide DeliveryReady, Counted;
    FailedUpdate(c.s, c.s.working.value, x);
    hide Publish, Deliver, SelectPostDelivery;
  }

  lemma FailedUpdate(s: State, r: string, x: Input)
    requires s.working == Some(r)
    ensures var d := Deliver(s, r, x); d.failure.Some? ==>
      var o := Publish(s, x);
      && o.Done? && o.state.errors != []
      && Last(o.state.errors) == WorkflowError(DeliveryErrorCode(d), d.failure.value, s.working)
      && o.state.retryCount == s.retryCount && o.state.totalAttempts == s.totalAttempts
      && SelectPostDelivery(o.state) == Goto(ClassifyFailure)
  {
    hide Deliver, DeliveryErrorCode;
  }

  lemma PublishLands(env: Env, c: Config, x: Input)
    requires Safe(env, c) && c.node.PublishRemediation?
    requires c.s.working.Some? && Deliver(c.s, c.s.working.value, x).failure.Some?
    ensures TickMove(env, c, x) == Landing(c, ClassifyFailure, Publish(c.s, x)) && Publish(c.s, x).Done?
    ensures Safe(env, TickMove(env, c, x))
  {
    FailedDelivery(env, c, x);
    TickPublish(env, c, x);
    PublishGoesOn(env, c, x);
    hide Publish, Frame, AtNode, Deliver, SelectPostDelivery, TickMove, Safe, Measure;
    Lands(env, c, x, ClassifyFailure);
  }

  lemma PublishGoesOn(env: Env, c: Config, x: Input)
    requires c.node.PublishRemediation?
    ensures Exec(env, c.node, c.s, x) == Publish(c.s, x) && ClassifyFailure in Successors(c.node)
    ensures Publish(c.s, x).Done? ==> Route(env, c.node, Publish(c.s, x).state) == SelectPostDelivery(Publish(c.s, x).state)
  {
    hide Publish, SelectPostDelivery;
  }

  lemma DeliveryCanRetry(env: Env, s: State)
    requires s.errors != [] && IsDeliveryCode(Last(s.errors).code) && Counted(env, s)
    ensures RetryNode(s) == Some(PublishRemediation)
    ensures CanRetry(env, s) <==> Last(s.errors).recoverable && s.retryCount < RetryCap(env)
  {
    BudgetLeft(env, s);
    hide RetryCap, ClassOfChecks;
  }

  /** After every failed delivery of every run: publication runs again, from the first stage not yet
      done, if and only if the error is recoverable and budget remains; otherwise it is escalated. */
  lemma DeliveryRetryScheduledExactly(env: Env, c: Config, x: Input, y: Input)
    requires Reachable(env, c) && c.node.PublishRemediation?
    ensures c.s.working.Some?
    ensures var d := Deliver(c.s, c.s.working.value, x); d.failure.Some? ==>
      && TickMove(env, c, x).node.ClassifyFailure?
      && TickMove(env, TickMove(env, c, x), y).node ==
           if d.failure.value && c.s.retryCount < RetryCap(env) then PublishRemediation else Escalate
  {
    SafeReachable(env, c);
    FailedDelivery(env, c, x);
    var d := Deliver(c.s, c.s.working.value, x);
    if d.failure.Some? {
      PublishLands(env, c, x);
      var c' := TickMove(env, c, x);
      assert c'.s == Publish(c.s, x).state;
      DeliveryCanRetry(env, c'.s);
      ClassifyLands(env, c', y);
    }
    hide TickMove, Publish, Deliver, CanRetry, RetryNode, RetryCap, Safe, DeliveryErrorCode;
  }

  // The first stage not done whose call fails.
  function FailingCall(s: State, x: Input): Option<Call> {
    if s.branch.None? && x.branch.Fails? then Some(x.branch)
    else if s.pullRequest.None? && x.pullRequest.Fails? then Some(x.pullRequest)
    else if s.jira.None? && x.jira.Fails? then Some(x.jira)
    else None
  }

  /** Each stage not done is called with its own answer, in order, up to the first call that fails: the
      stages before it are done, none is called from it on, and its answer is the error's. */
  lemma DeliverExactly(s: State, repo: string, x: Input)
    ensures var d := Deliver(s, repo, x);
      var b := s.branch.Some? || x.branch.Succeeds?;
      var p := s.pullRequest.Some? || (b && x.pullRequest.Succeeds?);
      var j := s.jira.Some? || (b && p && x.jira.Succeeds?);
      && d.branch == (if s.branch.Some? then s.branch else if b then Some(repo) else None)
      && d.pullRequest == (if s.pullRequest.Some? then s.pullRequest else if p then Some(repo) else None)
      && d.jira == (if s.jira.Some? then s.jira else if j then Some(repo) else None)
      && (d.failure.None? <==> b && p && j) && (d.failure.None? <==> FailingCall(s, x).None?)
      && (d.failure.Some? ==> d.failure == Some(FailingCall(s, x).value.recoverable))
      && d.entries == [PublishRun(repo)]
           + (if s.branch.None? && b then [BranchPublished(repo)] else [])
           + (if s.pullRequest.None? && p then [PullRequestOpened(repo, DraftFlag(s))] else [])
           + (if s.jira.None? && j then [JiraCompleted(repo)] else [])
  {
    hide DraftFlag;
  }

  /** After every publication of every run, the answers to its calls decide: when a call fails, publication
      runs again if and only if that call's error is recoverable and budget remains, and is escalated
      otherwise; when none does, the run goes on with the next repository, or ends. */
  lemma DeliveryFollowsAnswers(env: Env, c: Config, x: Input, y: Input)
    requires Reachable(env, c) && c.node.PublishRemediation?
    ensures c.s.working.Some?
    ensures match FailingCall(c.s, x)
      case Some(call) =>
        && TickMove(env, c, x).node.ClassifyFailure?
        && TickMove(env, TickMove(env, c, x), y).node ==
             if call.recoverable && c.s.retryCount < RetryCap(env) then PublishRemediation else Escalate
      case None =>
        TickMove(env, c, x).node == if Without(c.s.pending, c.s.working.value) == [] then End else DetectMavenProfile
  {
    assert !BeforeIntake(c.node);
    hide *;
    DeliveryRetryScheduledExactly(env, c, x, y);
    DeliverExactly(c.s, c.s.working.value, x);
    if FailingCall(c.s, x).None? {
      SafeReachable(env, c);
      SafeHasNoFault(env, c);
      DeliveredGoesOn(env, c, x);
    }
  }

  lemma SafeHasNoFault(env: Env, c: Config)
    requires Safe(env, c)
    ensures c.fault.None?
  {
    hide Frame, AtNode;
  }

  lemma DeliveredGoesOn(env: Env, c: Config, x: Input)
    requires c.node.PublishRemediation? && c.fault.None? && c.s.working.Some? && Deliver(c.s, c.s.working.value, x).failure.None?
    ensures TickMove(env, c, x).node == if Without(c.s.pending, c.s.working.value) == [] then End else DetectMavenProfile
  {
    hide Deliver, Without, FindTargetIndex;
  }

  /** In every run, the code of a failed delivery names the first stage not done, and the fallback code
      is never used. */
  lemma DeliveryCodeNamesStage(env: Env, c: Config, x: Input)
    requires Reachable(env, c) && c.node.PublishRemediation?
    ensures c.s.working.Some?
    ensures var d := Deliver(c.s, c.s.working.value, x); d.failure.Some? ==>
      var code := Last(Publish(c.s, x).state.errors).code;
      && (code.DeliveryBranchPublicationFailed? <==> d.branch.None?)
      && (code.DeliveryPullRequestFailed? <==> d.branch.Some? && d.pullRequest.None?)
      && (code.DeliveryJiraFailed? <==> d.branch.Some? && d.pullRequest.Some? && d.jira.None?)
      && !code.DeliveryFailed?
  {
    hide Reachable, Safe, Publish, Deliver;
    SafeReachable(env, c);
    FailedDelivery(env, c, x);
    StagesAtPublish(env, c);
    FailedDeliveryIsIncomplete(c.s, c.s.working.value, x);
  }

  lemma StagesAtPublish(env: Env, c: Config)
    requires Safe(env, c) && c.node.PublishRemediation?
    ensures StagesOrdered(c.s) && c.s.jira.None?
  {
    assert DeliveryReady(env, c.s, c.log);
    hide Safe, Active, Cleared;
  }

  /* ---------- Error codes over whole runs ---------- */

  predicate NoFallback(errors: seq<WorkflowError>) {
    forall e :: e in errors ==> !e.code.DeliveryFailed?
  }

  predicate KeepsCodes(s: State, o: Outcome) {
    o.Done? && NoFallback(s.errors) ==> NoFallback(o.state.errors)
  }

  lemma IntakeCodes(s: State, x: Input)
    ensures KeepsCodes(s, Bootstrap(s)) && KeepsCodes(s, Probe(s)) && KeepsCodes(s, Ingest(s, x))
    ensures KeepsCodes(s, LoadContext(s, x)) && KeepsCodes(s, CheckIdempotency(s, x))
  {
    hide NoFallback;
  }

  lemma PlanningCodes(env: Env, s: State, x: Input)
    ensures KeepsCodes(s, DetectProfile(s)) && KeepsCodes(s, LoadAdvisory(s, x)) && KeepsCodes(s, VerifyTarget(s, x))
    ensures KeepsCodes(s, ChooseRoute(s))
  {
    hide NoFallback;
  }

  lemma GateCodes(env: Env, s: State)
    ensures KeepsCodes(s, ApplyPolicyUpdate(env, s)) && KeepsCodes(s, PrepareDelivery(s))
    ensures KeepsCodes(s, Review(RemediationStage, s)) && KeepsCodes(s, Review(DeliveryStage, s))
  {
    hide EvaluatePolicy;
  }

  lemma LaneCodes(n: Node, strategy: Strategy, s: State, x: Input)
    ensures KeepsCodes(s, PomLane(n, strategy, s, x))
  {
    hide NoFallback;
  }

  lemma ComplexCodes(s: State, x: Input)
    ensures KeepsCodes(s, PrepareComplex(s)) && KeepsCodes(s, ExecuteScaffold(s, x))
  {
    hide NoFallback;
  }

  lemma ValidationCodes(env: Env, s: State, x: Input)
    ensures KeepsCodes(s, Preflight(s, x)) && KeepsCodes(s, Validate(s, x)) && KeepsCodes(s, HandleFailure(s))
    ensures KeepsCodes(s, ClassifyUpdate(env, s)) && KeepsCodes(s, EscalateUpdate(s))
  {
    if s.validations != [] {
      CodeOfChecksIsValidation(Last(s.validations).checks);
    }
    hide Classify, CanRetry, RetryNode, CodeOfChecks, RecoverableChecks;
  }

  lemma DeliveryCodes(s: State, x: Input)
    requires StagesOrdered(s) && s.jira.None?
    ensures KeepsCodes(s, Publish(s, x))
  {
    if s.working.Some? {
      FailedDeliveryIsIncomplete(s, s.working.value, x);
    }
    hide Deliver, Without, FindTargetIndex, DeliveryErrorCode;
  }

  lemma SkipCodes(s: State)
    ensures KeepsCodes(s, SkipPublish(s))
  {
    hide Without, FindTargetIndex;
  }

  lemma SameCodes(s: State)
    ensures KeepsCodes(s, Done(s, []))
  {
  }

  lemma ExecCodes(env: Env, n: Node, s: State, x: Input)
    requires n.PublishRemediation? ==> StagesOrdered(s) && s.jira.None?
    ensures KeepsCodes(s, Exec(env, n, s, x))
  {
    hide KeepsCodes, Bootstrap, Probe, Ingest, LoadContext, CheckIdempotency, DetectProfile, LoadAdvisory, VerifyTarget,
      ChooseRoute, ApplyPolicyUpdate, Review, PrepareDelivery, PomLane, PrepareComplex, ExecuteScaffold, Preflight, Validate,
      HandleFailure, ClassifyUpdate, EscalateUpdate, Publish, SkipPublish;
    IntakeCodes(s, x);
    PlanningCodes(env, s, x);
    GateCodes(env, s);
    ComplexCodes(s, x);
    LaneCodes(RemediateSimple, SimpleUpdate, s, x);
    LaneCodes(RemediateTransitive, TransitiveOverride, s, x);
    ValidationCodes(env, s, x);
    if n.PublishRemediation? {
      DeliveryCodes(s, x);
    }
    SkipCodes(s);
    SameCodes(s);
  }

  lemma FollowCodes(env: Env, c: Config, from: Node, o: Outcome)
    requires KeepsCodes(c.s, o) && NoFallback(c.s.errors)
    ensures NoFallback(Follow(env, c, from, o).s.errors)
  {
    hide Route, Successors, NoFallback;
  }

  lemma StepCodes(env: Env, c: Config, m: Move)
    requires Inv(env, c) && NoFallback(c.s.errors)
    ensures NoFallback(Step(env, c, m).s.errors)
  {
    hide Inv, NoFallback, TickMove, ResumeMove;
    if m.Tick? {
      TickCodes(env, c, m.input);
    } else {
      ResumeCodes(env, c, m.decision);
    }
  }

  lemma TickCodes(env: Env, c: Config, x: Input)
    requires Inv(env, c) && NoFallback(c.s.errors)
    ensures NoFallback(TickMove(env, c, x).s.errors)
  {
    PublishOrdered(env, c);
    hide Exec, Follow, KeepsCodes, NoFallback, Inv, StagesOrdered;
    ExecCodes(env, c.node, c.s, x);
    FollowCodes(env, c.(steps := c.steps + 1), c.node, Exec(env, c.node, c.s, x));
  }

  lemma ResumeCodes(env: Env, c: Config, d: Decision)
    requires NoFallback(c.s.errors)
    ensures NoFallback(ResumeMove(env, c, d).s.errors)
  {
    hide Review, Follow, NoFallback;
    var s := c.s.(feedback := Some(d));
    GateCodes(env, s);
    FollowCodes(env, c.(armed := false), GateOf(ResumeStage(c.s)), Review(ResumeStage(c.s), s));
  }

  lemma PublishOrdered(env: Env, c: Config)
    requires Inv(env, c)
    ensures c.node.PublishRemediation? ==> StagesOrdered(c.s) && c.s.jira.None?
  {
    assert c.node.PublishRemediation? ==> DeliveryReady(env, c.s, c.log);
    hide Frame, LogView, OwnedBy, Blank, Bounded;
  }

  lemma {:induction false} RunCodes(env: Env, c: Config, moves: seq<Move>)
    requires Inv(env, c) && NoFallback(c.s.errors)
    ensures NoFallback(RunFrom(env, c, moves).s.errors)
    decreases |moves|
  {
    hide Step, Inv, NoFallback;
    if moves != [] {
      StepKeeps(env, c, moves[0]);
      StepCodes(env, c, moves[0]);
      RunCodes(env, Step(env, c, moves[0]), moves[1..]);
    }
  }

  /** No reachable state holds an error with the fallback code `delivery_failed`. */
  lemma FallbackCodeIsNeverUsed(env: Env, c: Config)
    requires Reachable(env, c)
    ensures forall e :: e in c.s.errors ==> !e.code.DeliveryFailed?
  {
    StartHolds(env);
    var moves: seq<Move> :| c == RunFrom(env, Start, moves);
    assert NoFallback(Start.s.errors);
    RunCodes(env, Start, moves);
    hide RunFrom, Inv;
  }
}
