/**
 The inductive invariant of the workflow: what holds of the state, the log and the queue when a node
 is about to execute, and the measure that bounds a run.
 */
module Invariant {
  import opened Collections
  import opened Verdicts
  import opened Workflow
  import opened Trace

  /* ---------- Budgets ---------- */

  function Max(a: int, b: int): int {
    if a < b then b else a
  }

  function Min(a: int, b: int): int {
    if a < b then a else b
  }

  // The largest retry count a repository can reach.
  function RetryCap(env: Env): nat {
    Max(0, Min(env.maxRetries, env.maxTotal - 1))
  }

  // The most node executions one completed repository takes.
  function RepoCost(env: Env): nat {
    12 + 5 * RetryCap(env)
  }

  function Remaining(env: Env, n: nat): nat {
    if n == 0 then 0 else RepoCost(env) + Remaining(env, n - 1)
  }

  function StepBound(env: Env, n: nat): nat {
    7 + Remaining(env, n)
  }

  function PauseRank(s: State): nat {
    if s.pendingStage == Some(DeliveryStage) then 3 else 8
  }

  // Node executions left on the current repository when no further retry happens.
  function Rank(c: Config): nat {
    match c.node
    case BootstrapState => 19
    case ProbeCredentials => 18
    case IngestAndParseJira => 17
    case LoadRepositoryContext => 16
    case CheckRepositoryIdempotency => 15
    case DetectMavenProfile => 14
    case VerifyAdvisory => 13
    case VerifyMavenTarget => 12
    case SelectRoute => 11
    case ApplyPolicy => 10
    case ReviewRemediationApproval => 9
    case PrepareComplexRemediation => 8
    case RemediateSimple => 8
    case RemediateTransitive => 8
    case ExecuteComplexScaffold => 7
    case PreflightValidate => 7
    case ValidateRemediation => 6
    case HandleValidationFailure => 5
    case PrepareDeliveryApproval => 5
    case ReviewDeliveryApproval => 4
    case PublishRemediation => 3
    case SkipPublishForDryRun => 3
    case ClassifyFailure => if c.s.validations != [] && LatestFailed(c.s) then 4 else 2
    case Escalate => 1
    case End => if Paused(c) then PauseRank(c.s) else 0
  }

  function Measure(env: Env, c: Config): nat {
    if c.node.End? && !Paused(c) then 0
    else
      var n := |Distinct(c.s.pending)|;
      Rank(c) + 5 * Max(0, RetryCap(env) - c.s.retryCount) + (if n == 0 then 0 else Remaining(env, n - 1))
  }

  predicate BeforeIntake(n: Node) {
    || n.BootstrapState? || n.ProbeCredentials? || n.IngestAndParseJira? || n.LoadRepositoryContext?
    || n.CheckRepositoryIdempotency?
  }

  /* ---------- Facts about one repository ---------- */

  // Nothing has been attempted for the current repository.
  predicate Unattempted(s: State) {
    && s.preflight.None? && s.complexPlan.None? && s.modified == [] && s.validations == [] && s.rollback.None?
    && s.branch.None? && s.pullRequest.None? && s.jira.None?
    && s.totalAttempts == 0 && s.classifications == [] && s.errors == [] && s.retryCount == 0 && s.retry.None?
    && s.approvals == [] && !s.escalated
  }

  predicate Untouched(s: State) {
    Unattempted(s) && s.feedback.None?
  }

  predicate PolicyOpen(s: State) {
    s.policyDecisions == [] && !s.requiresDelivery && s.pendingStage.None?
  }

  // The state a repository starts from: every field its run depends on has its initial value.
  predicate Fresh(s: State) {
    && Untouched(s) && PolicyOpen(s) && !s.requiresApproval
    && s.working.None? && s.route.None? && s.maven.None? && s.mavenPlan.None?
    && s.status.InProgress? && s.vulnerability.Some?
  }

  predicate Routed(s: State) {
    && s.advisory.Some? && s.maven.Some? && s.route == Some(BuildRouteDecision(s.advisory.value, s.maven.value))
  }

  predicate Decided(s: State) {
    && Routed(s)
    && s.policyDecisions == [PolicyDecision(true, s.requiresApproval, s.requiresDelivery)]
    && (s.route.value.requiresApproval ==> s.requiresApproval)
    && (s.requiresDelivery ==> s.route.value.strategy.ComplexRefactor?)
  }

  // Past the remediation gate: policy allowed the route, and a human approved it if asked to.
  predicate Cleared(s: State) {
    && Decided(s)
    && !s.route.value.strategy.UnknownRoute?
    && (s.requiresApproval ==> HasApproved(s, RemediationStage))
  }

  predicate Counted(env: Env, s: State) {
    s.retryCount == s.totalAttempts <= RetryCap(env)
  }

  // No repository-scoped datum belongs to another repository.
  predicate OwnedBy(s: State, r: string) {
    && (forall v :: v in s.validations ==> v.repository == r)
    && (forall e :: e in s.errors ==> e.repository == Some(r))
    && (s.branch.Some? ==> s.branch.value == r)
    && (s.pullRequest.Some? ==> s.pullRequest.value == r)
    && (s.jira.Some? ==> s.jira.value == r)
    && (s.complexPlan.Some? ==> s.complexPlan.value == r)
    && s.mavenPlan == Some(r)
  }

  // The log and the state agree on the current repository.
  predicate LogView(log: seq<Entry>, s: State, r: string) {
    && PolicyOf(log, r) == (if s.policyDecisions == [] then None else Some(Last(s.policyDecisions)))
    && VerdictOf(log, r) == (if s.validations == [] then None else Some(LatestFailed(s)))
    && (Granted(r, RemediationStage) in log <==> HasApproved(s, RemediationStage))
    && (Granted(r, DeliveryStage) in log <==> HasApproved(s, DeliveryStage))
    && (BranchPublished(r) in log <==> s.branch.Some?)
    && (OpenedPullRequest(log, r) <==> s.pullRequest.Some?)
    && (JiraCompleted(r) in log <==> s.jira.Some?)
  }

  // A repository is being worked on: it is the head of the queue.
  predicate Active(env: Env, s: State, log: seq<Entry>) {
    && s.pending != []
    && s.working == Some(s.pending[0])
    && s.vulnerability.Some?
    && !s.escalated
    && OwnedBy(s, s.pending[0])
    && LogView(log, s, s.pending[0])
  }

  predicate Unpublished(s: State, log: seq<Entry>) {
    && s.branch.None? && s.pullRequest.None? && s.jira.None?
    && (s.working.Some? ==> PublishRun(s.working.value) !in log)
  }

  // Stages of delivery complete in order.
  predicate StagesOrdered(s: State) {
    (s.pullRequest.Some? ==> s.branch.Some?) && (s.jira.Some? ==> s.pullRequest.Some?)
  }

  predicate Planned(env: Env, s: State, log: seq<Entry>) {
    && Active(env, s, log) && Cleared(s) && Counted(env, s) && s.pendingStage.None?
    && Unpublished(s, log) && !HasApproved(s, DeliveryStage)
  }

  // A lane is about to run on a workspace without leftovers of an earlier attempt.
  predicate LaneReady(env: Env, s: State, log: seq<Entry>) {
    && Planned(env, s, log)
    && s.modified == [] && s.rollback.None? && s.preflight.None?
    && !Dirty(log, s.pending[0])
    && (s.validations != [] ==> LatestFailed(s) && RolledBack(s.pending[0]) in log)
  }

  predicate LatestPassed(s: State) {
    s.validations != [] && !LatestFailed(s)
  }

  // Delivery may run, or has begun and may be resumed.
  predicate DeliveryReady(env: Env, s: State, log: seq<Entry>) {
    && Active(env, s, log) && Cleared(s) && Counted(env, s) && s.pendingStage.None?
    && LatestPassed(s) && !env.dryRun
    && (s.requiresDelivery ==> HasApproved(s, DeliveryStage))
    && StagesOrdered(s)
    && s.jira.None?
  }

  // What brought the run to classify_failure.
  predicate FailureKnown(env: Env, s: State, log: seq<Entry>) {
    && s.errors != []
    && var e := Last(s.errors);
       if e.code.ApprovalRejected? then !e.recoverable
       else if IsDeliveryCode(e.code) then DeliveryReady(env, s, log)
       else
         && IsValidationCode(e.code)
         && Planned(env, s, log) && s.validations != [] && LatestFailed(s)
         && (s.complexPlan == s.working || !s.route.value.strategy.ComplexRefactor?)
         && RolledBack(s.pending[0]) in log && !Dirty(log, s.pending[0])
  }

  // Stopped at the remediation gate: nothing has run.
  predicate AwaitingRemediation(env: Env, s: State, log: seq<Entry>) {
    && Active(env, s, log) && Decided(s) && Unattempted(s) && s.requiresApproval
    && s.pendingStage == Some(RemediationStage) && DecisionOf(s).Undecided?
    && !RanLane(log, s.pending[0]) && PublishRun(s.pending[0]) !in log
  }

  // Stopped at the delivery gate: validation passed, nothing is published.
  predicate AwaitingDelivery(env: Env, s: State, log: seq<Entry>) {
    && Active(env, s, log) && Cleared(s) && Counted(env, s) && Unpublished(s, log) && LatestPassed(s)
    && s.requiresDelivery && !HasApproved(s, DeliveryStage) && !env.dryRun
    && s.pendingStage == Some(DeliveryStage) && DecisionOf(s).Undecided?
  }

  /* ---------- Where a run can end ---------- */

  datatype Ending = EndedCompleted | EndedEscalated | EndedBlocked | EndedAwaiting | EndedUnknownRoute

  predicate EndsAs(env: Env, s: State, log: seq<Entry>, ending: Ending) {
    match ending
    case EndedCompleted =>
      && s.status.Completed? && s.pending == [] && s.errors == [] && !s.escalated && Counted(env, s)
      && s.classifications == [] && s.retry.None? && s.pendingStage.None?
    case EndedEscalated => s.status.Failed? && s.errors != [] && s.escalated && s.retryCount <= RetryCap(env)
    case EndedBlocked =>
      && s.status.Failed? && s.errors != [] && Last(s.errors).code.PolicyBlocked? && !s.escalated
      && s.policyDecisions != [] && !Last(s.policyDecisions).allowed
      && s.retryCount == s.totalAttempts == 0
    case EndedAwaiting => s.status.Pending? && (AwaitingRemediation(env, s, log) || AwaitingDelivery(env, s, log))
    case EndedUnknownRoute =>
      && s.status.InProgress? && s.route.Some? && s.route.value.strategy.UnknownRoute?
      && HasApproved(s, RemediationStage) && s.pending != [] && s.errors == [] && !s.escalated
      && s.retryCount == s.totalAttempts == 0
  }

  ghost predicate AtEnd(env: Env, s: State, log: seq<Entry>) {
    exists ending :: EndsAs(env, s, log, ending)
  }

  /* ---------- What holds when a node is about to execute ---------- */

  // Work on a repository has begun, but no decision has been taken about it.
  predicate Beginning(env: Env, s: State, log: seq<Entry>) {
    && Active(env, s, log) && Untouched(s) && PolicyOpen(s)
    && !RanLane(log, s.pending[0]) && PublishRun(s.pending[0]) !in log
  }

  predicate AtDetect(env: Env, s: State, log: seq<Entry>) {
    Fresh(s) && s.pending != []
  }

  predicate AtVerifyAdvisory(env: Env, s: State, log: seq<Entry>) {
    Beginning(env, s, log)
  }

  predicate AtVerifyMaven(env: Env, s: State, log: seq<Entry>) {
    Beginning(env, s, log) && s.advisory.Some?
  }

  predicate AtSelectRoute(env: Env, s: State, log: seq<Entry>) {
    Beginning(env, s, log) && s.advisory.Some? && s.maven.Some?
  }

  predicate AtApplyPolicy(env: Env, s: State, log: seq<Entry>) {
    && Beginning(env, s, log) && Routed(s)
    && s.requiresApproval == s.route.value.requiresApproval
  }

  predicate AtReviewRemediation(env: Env, s: State, log: seq<Entry>) {
    AwaitingRemediation(env, s, log) && s.feedback.None?
  }

  predicate AtLane(env: Env, s: State, log: seq<Entry>, strategy: Strategy) {
    LaneReady(env, s, log) && s.route.value.strategy == strategy
  }

  predicate ScaffoldPrepared(s: State) {
    s.route.Some? && s.route.value.strategy.ComplexRefactor? ==> s.complexPlan == s.working
  }

  predicate AtExecuteScaffold(env: Env, s: State, log: seq<Entry>) {
    AtLane(env, s, log, ComplexRefactor) && ScaffoldPrepared(s)
  }

  predicate AtPreflight(env: Env, s: State, log: seq<Entry>) {
    Planned(env, s, log) && ScaffoldPrepared(s) && RanLane(log, s.pending[0])
  }

  predicate AtValidate(env: Env, s: State, log: seq<Entry>) {
    Planned(env, s, log) && ScaffoldPrepared(s) && RanLane(log, s.pending[0])
  }

  predicate AtHandleFailure(env: Env, s: State, log: seq<Entry>) {
    Planned(env, s, log) && ScaffoldPrepared(s) && s.validations != [] && LatestFailed(s)
  }

  predicate AtPrepareDelivery(env: Env, s: State, log: seq<Entry>) {
    Planned(env, s, log) && LatestPassed(s) && s.requiresDelivery && !env.dryRun
  }

  predicate AtReviewDelivery(env: Env, s: State, log: seq<Entry>) {
    AwaitingDelivery(env, s, log) && s.feedback.None?
  }

  predicate AtSkip(env: Env, s: State, log: seq<Entry>) {
    Planned(env, s, log) && LatestPassed(s) && env.dryRun
  }

  predicate AtClassify(env: Env, s: State, log: seq<Entry>) {
    Active(env, s, log) && Counted(env, s) && FailureKnown(env, s, log)
  }

  predicate AtEscalate(env: Env, s: State, log: seq<Entry>) {
    && Active(env, s, log) && s.errors != []
    && s.totalAttempts == s.retryCount + 1 && s.retryCount <= RetryCap(env)
  }

  /* ---------- The invariant ---------- */

  // Nothing is queued or recorded before intake.
  predicate Blank(c: Config) {
    && c.s.pending == [] && c.s.completed == [] && c.s.skipped == [] && c.s.working.None? && c.s.repoMap == map[]
    && c.log == [] && c.queue == [] && c.armed
    && Untouched(c.s) && PolicyOpen(c.s) && !c.s.requiresApproval
    && c.s.route.None? && c.s.maven.None? && c.s.mavenPlan.None?
    && c.steps == 19 - Rank(c)
    && (c.node.LoadRepositoryContext? || c.node.CheckRepositoryIdempotency? ==>
          c.s.vulnerability.Some? && c.s.status.InProgress?)
  }

  // completed_repos followed by the distinct pending repositories is the distinct intake queue.
  predicate QueueConserved(s: State, queue: seq<string>) {
    s.completed + Distinct(s.pending) == Distinct(queue)
  }

  ghost predicate LogScope(s: State, log: seq<Entry>) {
    && (forall e :: e in log ==> e.repo in s.completed || s.working == Some(e.repo))
    && (forall r :: RepoCompleted(r) in log <==> r in s.completed)
  }

  predicate WorkspacesKnown(s: State) {
    forall r :: r in s.pending ==> r in s.repoMap && s.repoMap[r].name == r
  }

  // What every configuration after intake satisfies.
  ghost predicate Frame(env: Env, s: State, log: seq<Entry>, queue: seq<string>) {
    WorkspacesKnown(s) && QueueConserved(s, queue) && LogScope(s, log) && Justified(env, log)
  }

  ghost predicate AtNode(env: Env, n: Node, s: State, log: seq<Entry>) {
    match n
    case DetectMavenProfile => AtDetect(env, s, log)
    case VerifyAdvisory => AtVerifyAdvisory(env, s, log)
    case VerifyMavenTarget => AtVerifyMaven(env, s, log)
    case SelectRoute => AtSelectRoute(env, s, log)
    case ApplyPolicy => AtApplyPolicy(env, s, log)
    case ReviewRemediationApproval => AtReviewRemediation(env, s, log)
    case PrepareComplexRemediation => AtLane(env, s, log, ComplexRefactor)
    case ExecuteComplexScaffold => AtExecuteScaffold(env, s, log)
    case RemediateSimple => AtLane(env, s, log, SimpleUpdate)
    case RemediateTransitive => AtLane(env, s, log, TransitiveOverride)
    case PreflightValidate => AtPreflight(env, s, log)
    case ValidateRemediation => AtValidate(env, s, log)
    case HandleValidationFailure => AtHandleFailure(env, s, log)
    case PrepareDeliveryApproval => AtPrepareDelivery(env, s, log)
    case ReviewDeliveryApproval => AtReviewDelivery(env, s, log)
    case PublishRemediation => DeliveryReady(env, s, log)
    case SkipPublishForDryRun => AtSkip(env, s, log)
    case ClassifyFailure => AtClassify(env, s, log)
    case Escalate => AtEscalate(env, s, log)
    case End => AtEnd(env, s, log)
    case _ => true
  }

  predicate Bounded(env: Env, c: Config) {
    c.steps + Measure(env, c) <= StepBound(env, |Distinct(c.queue)|)
  }

  ghost predicate Inv(env: Env, c: Config) {
    && c.fault.None?
    && if BeforeIntake(c.node) then Blank(c) else Frame(env, c.s, c.log, c.queue) && AtNode(env, c.node, c.s, c.log) && Bounded(env, c)
  }
}
