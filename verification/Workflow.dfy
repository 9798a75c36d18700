/**
 The remediation graph as a transition system: the state, the update each node makes, the
 conditional edges, and the two kinds of move a run is made of (graph/builder.py and nodes/).

 Everything an adapter returns is an `Input`, chosen freely at each node execution. A node that
 the source lets raise (a missing state field, an empty queue, an unknown repository, an
 undeclared edge) yields a `Fault` here.
 */
module Workflow {
  import opened Collections
  import opened Verdicts

  /* ---------- Data ---------- */

  datatype WorkflowStatus = Pending | Bootstrapped | PlanningReady | InProgress | Completed | Failed

  datatype Strategy = UnknownRoute | SimpleUpdate | TransitiveOverride | ComplexRefactor

  datatype Stage = RemediationStage | DeliveryStage

  datatype Decision = Undecided | Approved | Rejected

  datatype VerificationStatus = VerificationPending | Verified | VerificationRejected

  datatype MavenVerification = MavenVerification(status: VerificationStatus, highRisk: bool, transitive: bool)

  datatype RouteDecision = RouteDecision(strategy: Strategy, requiresApproval: bool)

  datatype PolicyDecision = PolicyDecision(allowed: bool, requiresApproval: bool, requiresDelivery: bool)

  datatype ApprovalRecord = ApprovalRecord(stage: Stage, decision: Decision)

  datatype Target = Target(repository: string, tags: set<string>)

  datatype Workspace = Workspace(name: string, tags: set<string>)

  datatype Node =
    | BootstrapState
    | ProbeCredentials
    | IngestAndParseJira
    | LoadRepositoryContext
    | CheckRepositoryIdempotency
    | DetectMavenProfile
    | VerifyAdvisory
    | VerifyMavenTarget
    | SelectRoute
    | ApplyPolicy
    | ReviewRemediationApproval
    | PrepareComplexRemediation
    | ExecuteComplexScaffold
    | RemediateSimple
    | RemediateTransitive
    | PreflightValidate
    | ValidateRemediation
    | HandleValidationFailure
    | PrepareDeliveryApproval
    | ReviewDeliveryApproval
    | PublishRemediation
    | SkipPublishForDryRun
    | ClassifyFailure
    | Escalate
    | End

  datatype RetryDecision = RetryDecision(classification: Classification, nextNode: Node)

  datatype AuditEvent = AuditEvent(node: Node, repository: Option<string>, decision: Decision)

  // The control-relevant fields of RemediationState.
  datatype State = State(
    status: WorkflowStatus,
    vulnerability: Option<string>,
    advisory: Option<VerificationStatus>,
    maven: Option<MavenVerification>,
    route: Option<RouteDecision>,
    preflight: Option<bool>,
    complexPlan: Option<string>,
    mavenPlan: Option<string>,
    targets: seq<Target>,
    targetIndex: nat,
    repoMap: map<string, Workspace>,
    pending: seq<string>,
    working: Option<string>,
    completed: seq<string>,
    skipped: seq<string>,
    modified: seq<Path>,
    validations: seq<ValidationResult>,
    rollback: Option<seq<Path>>,
    branch: Option<string>,
    pullRequest: Option<string>,
    jira: Option<string>,
    totalAttempts: nat,
    classifications: seq<Classification>,
    policyDecisions: seq<PolicyDecision>,
    errors: seq<WorkflowError>,
    retryCount: nat,
    retry: Option<RetryDecision>,
    requiresApproval: bool,
    requiresDelivery: bool,
    pendingStage: Option<Stage>,
    feedback: Option<Decision>,
    approvals: seq<ApprovalRecord>,
    escalated: bool,
    audit: seq<AuditEvent>)

  const InitialState: State := State(
    Pending, None, None, None, None, None, None, None, [], 0, map[], [], None, [], [], [], [], None,
    None, None, None, 0, [], [], [], 0, None, false, false, None, None, [], false, [])

  datatype PolicyConfig = PolicyConfig(
    complexNeedsApproval: bool,
    complexNeedsDelivery: bool,
    transitiveNeedsApproval: bool,
    approvalTags: set<string>,
    blockedTags: set<string>)

  datatype Env = Env(dryRun: bool, maxRetries: int, maxTotal: int, policy: PolicyConfig)

  // What one delivery call does: it succeeds, or it fails with an error the node catches.
  datatype Call = Succeeds | Fails(recoverable: bool)

  // Everything the outside world may answer during one node execution.
  datatype Input = Input(
    package: string,
    targets: seq<Target>,
    existing: seq<bool>,
    advisory: VerificationStatus,
    maven: MavenVerification,
    preflight: bool,
    modified: seq<Path>,
    validationStatus: CheckStatus,
    checks: seq<Check>,
    unresolvedSummary: bool,
    branch: Call,
    pullRequest: Call,
    jira: Call)

  /* ---------- The history of a run ---------- */

  datatype Draft = AdapterDefault | AsDraft | ReadyForReview

  // What happened to a repository, in order: decisions, lane runs, external effects.
  datatype Entry =
    | PolicyDecided(repo: string, decision: PolicyDecision)
    | Granted(repo: string, stage: Stage)
    | LanePlanned(repo: string)
    | LaneRun(repo: string, strategy: Strategy)
    | Validated(repo: string, failed: bool)
    | RolledBack(repo: string)
    | PublishRun(repo: string)
    | BranchPublished(repo: string)
    | PullRequestOpened(repo: string, draft: Draft)
    | JiraCompleted(repo: string)
    | DryRunSkipped(repo: string)
    | RepoCompleted(repo: string)

  datatype Fault =
    | InvariantViolation(source: Node, field: string)
    | EmptyQueue(source: Node)
    | UnknownRepository(source: Node)
    | UndeclaredEdge(source: Node, target: Node)

  datatype Outcome = Raise(fault: Fault) | Done(state: State, entries: seq<Entry>)

  datatype Edge = BadEdge(fault: Fault) | Goto(node: Node)

  /* ---------- Reading the state ---------- */

  predicate HasApproved(s: State, stage: Stage) {
    ApprovalRecord(stage, Approved) in s.approvals
  }

  function DecisionOf(s: State): Decision {
    if s.feedback.None? then Undecided else s.feedback.value
  }

  // `state.current_working_repo or state.pending_repos[0]`
  function CurrentRepository(n: Node, s: State): Outcome {
    if s.working.Some? then Done(s, [])
    else if s.pending == [] then Raise(EmptyQueue(n))
    else Done(s.(working := Some(s.pending[0])), [])
  }

  function LatestFailed(s: State): bool
    requires s.validations != []
  {
    Last(s.validations).status == CheckFailed
  }

  function FindTargetIndex(targets: seq<Target>, repository: string, otherwise: nat): nat {
    if targets == [] then otherwise
    else if targets[0].repository == repository then 0
    else if exists t :: t in targets && t.repository == repository then 1 + FindTargetIndex(targets[1..], repository, otherwise)
    else otherwise
  }

  function Noted(s: State, n: Node): State {
    s.(audit := s.audit + [AuditEvent(n, s.working, DecisionOf(s))])
  }

  /* ---------- Intake ---------- */

  function Bootstrap(s: State): Outcome {
    // The source derives a queue from vulnerability details when they are already loaded; a run
    // starts without them, and intake rebuilds the queue.
    Done(Noted(s, BootstrapState).(status := Bootstrapped), [])
  }

  function Probe(s: State): Outcome {
    Done(Noted(s, ProbeCredentials), [])
  }

  function Ingest(s: State, x: Input): Outcome {
    Done(Noted(s, IngestAndParseJira).(status := InProgress, vulnerability := Some(x.package)), [])
  }

  function LoadContext(s: State, x: Input): Outcome {
    if s.vulnerability.None? then Raise(InvariantViolation(LoadRepositoryContext, "vulnerability_details"))
    else Done(Noted(s, LoadRepositoryContext).(targets := x.targets, targetIndex := 0), [])
  }

  // Answer i of the existing-pull-request lookup.
  predicate HasExisting(existing: seq<bool>, i: nat) {
    i < |existing| && existing[i]
  }

  function PendingOf(targets: seq<Target>, existing: seq<bool>): seq<string> {
    if targets == [] then []
    else
      var n := |targets| - 1;
      PendingOf(targets[..n], existing) + if HasExisting(existing, n) then [] else [targets[n].repository]
  }

  function SkippedOf(targets: seq<Target>, existing: seq<bool>): seq<string> {
    if targets == [] then []
    else
      var n := |targets| - 1;
      SkippedOf(targets[..n], existing) + if HasExisting(existing, n) then [targets[n].repository] else []
  }

  function WorkspacesOf(targets: seq<Target>, existing: seq<bool>, start: map<string, Workspace>): map<string, Workspace> {
    if targets == [] then start
    else
      var n := |targets| - 1;
      var before := WorkspacesOf(targets[..n], existing, start);
      if HasExisting(existing, n) then before
      else before[targets[n].repository := Workspace(targets[n].repository, targets[n].tags)]
  }

  function CheckIdempotency(s: State, x: Input): Outcome {
    var pending := PendingOf(s.targets, x.existing);
    Done(
      Noted(s, CheckRepositoryIdempotency).(
        repoMap := WorkspacesOf(s.targets, x.existing, s.repoMap),
        pending := pending,
        skipped := s.skipped + SkippedOf(s.targets, x.existing),
        status := if pending == [] then Completed else s.status),
      [])
  }

  /* ---------- Verification and routing ---------- */

  function DetectProfile(s: State): Outcome {
    match CurrentRepository(DetectMavenProfile, s)
    case Raise(f) => Raise(f)
    case Done(s', _) =>
      if s'.working.value !in s.repoMap then Raise(UnknownRepository(DetectMavenProfile))
      else Done(Noted(s', DetectMavenProfile).(mavenPlan := s'.working), [])
  }

  function LoadAdvisory(s: State, x: Input): Outcome {
    if s.vulnerability.None? then Raise(InvariantViolation(VerifyAdvisory, "vulnerability_details"))
    else Done(Noted(s, VerifyAdvisory).(advisory := Some(x.advisory)), [])
  }

  function VerifyTarget(s: State, x: Input): Outcome {
    if s.vulnerability.None? then Raise(InvariantViolation(VerifyMavenTarget, "vulnerability_details"))
    else if s.advisory.None? then Raise(InvariantViolation(VerifyMavenTarget, "advisory_verification"))
    else if s.working.None? then Raise(InvariantViolation(VerifyMavenTarget, "current_working_repo"))
    else if s.working.value !in s.repoMap then Raise(UnknownRepository(VerifyMavenTarget))
    else Done(Noted(s, VerifyMavenTarget).(maven := Some(x.maven)), [])
  }

  function BuildRouteDecision(advisory: VerificationStatus, maven: MavenVerification): RouteDecision {
    if !advisory.Verified? || !maven.status.Verified? then RouteDecision(UnknownRoute, true)
    else if maven.highRisk then RouteDecision(ComplexRefactor, true)
    else if maven.transitive then RouteDecision(TransitiveOverride, false)
    else RouteDecision(SimpleUpdate, false)
  }

  function ChooseRoute(s: State): Outcome {
    if s.advisory.None? then Raise(InvariantViolation(SelectRoute, "advisory_verification"))
    else if s.maven.None? then Raise(InvariantViolation(SelectRoute, "maven_verification"))
    else
      var route := BuildRouteDecision(s.advisory.value, s.maven.value);
      Done(Noted(s, SelectRoute).(status := PlanningReady, route := Some(route), requiresApproval := route.requiresApproval), [])
  }

  /* ---------- Policy ---------- */

  function CurrentTags(s: State): set<string> {
    if s.working.Some? && s.working.value in s.repoMap then s.repoMap[s.working.value].tags
    else if s.targetIndex < |s.targets| then s.targets[s.targetIndex].tags
    else {}
  }

  datatype ApprovalReason = RouteRequires | ComplexRequires | TransitiveRequires | TagsRequire

  function RouteReasons(route: RouteDecision, config: PolicyConfig): seq<ApprovalReason> {
    (if route.requiresApproval then [RouteRequires] else [])
    + (if route.strategy.ComplexRefactor? && config.complexNeedsApproval then [ComplexRequires] else [])
    + (if route.strategy.TransitiveOverride? && config.transitiveNeedsApproval then [TransitiveRequires] else [])
  }

  function ApprovalReasons(s: State, config: PolicyConfig, tags: set<string>): seq<ApprovalReason> {
    (if s.route.Some? then RouteReasons(s.route.value, config) else [])
    + (if tags * config.approvalTags != {} then [TagsRequire] else [])
  }

  function EvaluatePolicy(config: PolicyConfig, s: State): PolicyDecision {
    var tags := CurrentTags(s);
    if tags * config.blockedTags != {} then PolicyDecision(false, true, false)
    else
      PolicyDecision(
        true,
        s.requiresApproval || ApprovalReasons(s, config, tags) != [],
        s.route.Some? && s.route.value.strategy.ComplexRefactor? && config.complexNeedsDelivery)
  }

  function PolicyUpdate(s: State, decision: PolicyDecision): State {
    var decided := Noted(s, ApplyPolicy).(
      policyDecisions := s.policyDecisions + [decision],
      requiresApproval := decision.requiresApproval,
      requiresDelivery := decision.requiresDelivery);
    var gated :=
      if decision.requiresApproval then Noted(decided, ApplyPolicy).(status := Pending, pendingStage := Some(RemediationStage))
      else decided;
    if decision.allowed then gated
    else gated.(errors := s.errors + [WorkflowError(PolicyBlocked, false, s.working)], status := Failed)
  }

  function ApplyPolicyUpdate(env: Env, s: State): Outcome {
    var decision := EvaluatePolicy(env.policy, s);
    Done(PolicyUpdate(s, decision), if s.working.Some? then [PolicyDecided(s.working.value, decision)] else [])
  }

  /* ---------- Approval gates ---------- */

  function GateOf(stage: Stage): Node {
    if stage.DeliveryStage? then ReviewDeliveryApproval else ReviewRemediationApproval
  }

  function Review(stage: Stage, s: State): Outcome {
    var decision := DecisionOf(s);
    var noted := Noted(s, GateOf(stage));
    if decision.Undecided? then Done(noted.(status := Pending), [])
    else
      var recorded := noted.(
        approvals := s.approvals + [ApprovalRecord(stage, decision)],
        pendingStage := None);
      if decision.Approved? then
        Done(recorded.(status := InProgress), if s.working.Some? then [Granted(s.working.value, stage)] else [])
      else
        Done(recorded.(errors := s.errors + [WorkflowError(ApprovalRejected, false, s.working)], status := Failed), [])
  }

  function PrepareDelivery(s: State): Outcome {
    Done(Noted(s, PrepareDeliveryApproval).(status := Pending, pendingStage := Some(DeliveryStage), feedback := None), [])
  }

  /* ---------- Remediation lanes ---------- */

  // What the simple and transitive lanes require, in the order they check it.
  function PomLane(n: Node, strategy: Strategy, s: State, x: Input): Outcome {
    if s.route.None? then Raise(InvariantViolation(n, "route_decision"))
    else if s.maven.None? then Raise(InvariantViolation(n, "maven_verification"))
    else if s.route.value.strategy != strategy then Raise(InvariantViolation(n, "route_decision.strategy"))
    else
      match CurrentRepository(n, s)
      case Raise(f) => Raise(f)
      case Done(s', _) =>
        if s'.working.value !in s.repoMap then Raise(UnknownRepository(n))
        else if s.vulnerability.None? then Raise(InvariantViolation(n, "vulnerability_details"))
        else Done(Noted(s', n).(modified := x.modified), [LaneRun(s'.working.value, strategy)])
  }

  function PrepareComplex(s: State): Outcome {
    if s.route.None? then Raise(InvariantViolation(PrepareComplexRemediation, "route_decision"))
    else if s.maven.None? then Raise(InvariantViolation(PrepareComplexRemediation, "maven_verification"))
    else if s.vulnerability.None? then Raise(InvariantViolation(PrepareComplexRemediation, "vulnerability_details"))
    else if s.route.value.strategy != ComplexRefactor then
      Raise(InvariantViolation(PrepareComplexRemediation, "route_decision.strategy"))
    else
      match CurrentRepository(PrepareComplexRemediation, s)
      case Raise(f) => Raise(f)
      case Done(s', _) =>
        Done(Noted(s', PrepareComplexRemediation).(complexPlan := s'.working), [LanePlanned(s'.working.value)])
  }

  function ExecuteScaffold(s: State, x: Input): Outcome {
    if s.route.None? then Raise(InvariantViolation(ExecuteComplexScaffold, "route_decision"))
    else if s.route.value.strategy != ComplexRefactor then
      Raise(InvariantViolation(ExecuteComplexScaffold, "route_decision.strategy"))
    else if s.working.None? then Raise(InvariantViolation(ExecuteComplexScaffold, "current_working_repo"))
    else if s.complexPlan.None? then Raise(InvariantViolation(ExecuteComplexScaffold, "complex_remediation_plan"))
    else if s.working.value !in s.repoMap then Raise(UnknownRepository(ExecuteComplexScaffold))
    else Done(Noted(s, ExecuteComplexScaffold).(modified := x.modified), [LaneRun(s.working.value, ComplexRefactor)])
  }

  function Preflight(s: State, x: Input): Outcome {
    if s.working.None? then Raise(InvariantViolation(PreflightValidate, "current_working_repo"))
    else Done(Noted(s, PreflightValidate).(preflight := Some(x.preflight)), [])
  }

  /* ---------- Validation, rollback, retry ---------- */

  function Validate(s: State, x: Input): Outcome {
    if s.working.None? then Raise(InvariantViolation(ValidateRemediation, "current_working_repo"))
    else
      var result := ValidationResult(s.working.value, x.validationStatus, x.checks, x.unresolvedSummary);
      var failed := result.status == CheckFailed;
      Done(
        Noted(s, ValidateRemediation).(
          validations := s.validations + [result],
          status := if failed then Failed else InProgress,
          rollback := if failed then s.rollback else None,
          retry := if failed then s.retry else None),
        [Validated(s.working.value, failed)])
  }

  function HandleFailure(s: State): Outcome {
    if s.working.None? then Raise(InvariantViolation(HandleValidationFailure, "current_working_repo"))
    else if s.validations == [] then Raise(InvariantViolation(HandleValidationFailure, "validation_results"))
    else
      Done(
        Noted(s, HandleValidationFailure).(
          rollback := Some(s.modified),
          errors := s.errors + [ErrorOfResult(Last(s.validations)).(repository := s.working)],
          status := Failed),
        [RolledBack(s.working.value)])
  }

  function RetryNode(s: State): Option<Node> {
    if s.errors != [] && IsDeliveryCode(Last(s.errors).code) then Some(PublishRemediation)
    else if s.route.None? then None
    else
      match s.route.value.strategy
      case SimpleUpdate => Some(RemediateSimple)
      case TransitiveOverride => Some(RemediateTransitive)
      case ComplexRefactor => Some(ExecuteComplexScaffold)
      case UnknownRoute => None
  }

  predicate CanRetry(env: Env, s: State) {
    && RetryNode(s).Some?
    && IsRetryableClass(Classify(s.errors, s.validations))
    && s.totalAttempts + 1 < env.maxTotal
    && s.retryCount < env.maxRetries
    && s.errors != []
    && Last(s.errors).recoverable
  }

  function ClassifyUpdate(env: Env, s: State): Outcome {
    var classification := Classify(s.errors, s.validations);
    var canRetry := CanRetry(env, s);
    var next := if canRetry then RetryNode(s).value else Escalate;
    var clear := canRetry && next != PublishRemediation;
    Done(
      Noted(s, ClassifyFailure).(
        totalAttempts := s.totalAttempts + 1,
        classifications := s.classifications + [classification],
        retryCount := if next != Escalate then s.retryCount + 1 else s.retryCount,
        retry := Some(RetryDecision(classification, next)),
        status := if next != Escalate then InProgress else Failed,
        rollback := if clear then None else s.rollback,
        modified := if clear then [] else s.modified,
        preflight := if clear then None else s.preflight),
      [])
  }

  function EscalateUpdate(s: State): Outcome {
    Done(Noted(s, Escalate).(status := Failed, escalated := true), [])
  }

  /* ---------- Delivery ---------- */

  datatype Delivery = Delivery(
    branch: Option<string>, pullRequest: Option<string>, jira: Option<string>,
    entries: seq<Entry>, failure: Option<bool>)

  function DeliverBranch(repo: string, call: Call, d: Delivery): Delivery {
    if d.failure.Some? || d.branch.Some? then d
    else if call.Succeeds? then d.(branch := Some(repo), entries := d.entries + [BranchPublished(repo)])
    else d.(failure := Some(call.recoverable))
  }

  function DeliverPullRequest(repo: string, draft: Draft, call: Call, d: Delivery): Delivery {
    if d.failure.Some? || d.pullRequest.Some? then d
    else if call.Succeeds? then d.(pullRequest := Some(repo), entries := d.entries + [PullRequestOpened(repo, draft)])
    else d.(failure := Some(call.recoverable))
  }

  function DeliverJira(repo: string, call: Call, d: Delivery): Delivery {
    if d.failure.Some? || d.jira.Some? then d
    else if call.Succeeds? then d.(jira := Some(repo), entries := d.entries + [JiraCompleted(repo)])
    else d.(failure := Some(call.recoverable))
  }

  // `draft_pull_request=not _has_delivery_approval(state) if state.requires_delivery_approval else None`
  function DraftFlag(s: State): Draft {
    if !s.requiresDelivery then AdapterDefault
    else if HasApproved(s, DeliveryStage) then ReadyForReview
    else AsDraft
  }

  function Deliver(s: State, repo: string, x: Input): Delivery {
    var start := Delivery(s.branch, s.pullRequest, s.jira, [PublishRun(repo)], None);
    DeliverJira(repo, x.jira, DeliverPullRequest(repo, DraftFlag(s), x.pullRequest, DeliverBranch(repo, x.branch, start)))
  }

  function DeliveryErrorCode(d: Delivery): ErrorCode {
    if d.branch.None? then DeliveryBranchPublicationFailed
    else if d.pullRequest.None? then DeliveryPullRequestFailed
    else if d.jira.None? then DeliveryJiraFailed
    else DeliveryFailed
  }

  function Continue(s: State, pending: seq<string>, completed: seq<string>): State {
    if pending == [] then
      s.(completed := completed, pending := pending, pendingStage := None, classifications := [],
         errors := [], retry := None, status := Completed)
    else
      s.(completed := completed, pending := pending, working := None,
         targetIndex := FindTargetIndex(s.targets, pending[0], s.targetIndex),
         status := InProgress, route := None, preflight := None, complexPlan := None, mavenPlan := None,
         maven := None, modified := [], validations := [], rollback := None,
         branch := None, pullRequest := None, jira := None, totalAttempts := 0, classifications := [],
         policyDecisions := [], errors := [], retryCount := 0, retry := None,
         requiresApproval := false, requiresDelivery := false, pendingStage := None, feedback := None,
         approvals := [])
  }

  function FinishRepository(s: State, n: Node, repo: string): State {
    var completed := if repo in s.completed then s.completed else s.completed + [repo];
    Continue(Noted(s, n), Without(s.pending, repo), completed)
  }

  function WithDelivery(s: State, d: Delivery): State {
    s.(branch := d.branch, pullRequest := d.pullRequest, jira := d.jira)
  }

  function Publish(s: State, x: Input): Outcome {
    if s.working.None? then Raise(InvariantViolation(PublishRemediation, "current_working_repo"))
    else
      var repo := s.working.value;
      var d := Deliver(s, repo, x);
      var s' := WithDelivery(s, d);
      if d.failure.Some? then
        Done(
          Noted(s', PublishRemediation).(
            errors := s.errors + [WorkflowError(DeliveryErrorCode(d), d.failure.value, s.working)],
            status := Failed),
          d.entries)
      else
        Done(FinishRepository(s', PublishRemediation, repo), d.entries + [RepoCompleted(repo)])
  }

  function SkipPublish(s: State): Outcome {
    if s.working.None? then Raise(InvariantViolation(SkipPublishForDryRun, "current_working_repo"))
    else
      var repo := s.working.value;
      Done(FinishRepository(s, SkipPublishForDryRun, repo), [DryRunSkipped(repo), RepoCompleted(repo)])
  }

  /* ---------- The graph ---------- */

  function Exec(env: Env, n: Node, s: State, x: Input): Outcome {
    match n
    case BootstrapState => Bootstrap(s)
    case ProbeCredentials => Probe(s)
    case IngestAndParseJira => Ingest(s, x)
    case LoadRepositoryContext => LoadContext(s, x)
    case CheckRepositoryIdempotency => CheckIdempotency(s, x)
    case DetectMavenProfile => DetectProfile(s)
    case VerifyAdvisory => LoadAdvisory(s, x)
    case VerifyMavenTarget => VerifyTarget(s, x)
    case SelectRoute => ChooseRoute(s)
    case ApplyPolicy => ApplyPolicyUpdate(env, s)
    case ReviewRemediationApproval => Review(RemediationStage, s)
    case PrepareComplexRemediation => PrepareComplex(s)
    case ExecuteComplexScaffold => ExecuteScaffold(s, x)
    case RemediateSimple => PomLane(RemediateSimple, SimpleUpdate, s, x)
    case RemediateTransitive => PomLane(RemediateTransitive, TransitiveOverride, s, x)
    case PreflightValidate => Preflight(s, x)
    case ValidateRemediation => Validate(s, x)
    case HandleValidationFailure => HandleFailure(s)
    case PrepareDeliveryApproval => PrepareDelivery(s)
    case ReviewDeliveryApproval => Review(DeliveryStage, s)
    case PublishRemediation => Publish(s, x)
    case SkipPublishForDryRun => SkipPublish(s)
    case ClassifyFailure => ClassifyUpdate(env, s)
    case Escalate => EscalateUpdate(s)
    case End => Done(s, [])
  }

  function SelectRemediationNode(n: Node, s: State): Edge {
    if s.route.None? then BadEdge(InvariantViolation(n, "route_decision"))
    else
      match s.route.value.strategy
      case SimpleUpdate => Goto(RemediateSimple)
      case TransitiveOverride => Goto(RemediateTransitive)
      case ComplexRefactor => Goto(PrepareComplexRemediation)
      case UnknownRoute => Goto(End)
  }

  function SelectPostPolicy(s: State): Edge {
    if s.policyDecisions != [] && !Last(s.policyDecisions).allowed then Goto(End)
    else if s.requiresApproval then Goto(ReviewRemediationApproval)
    else SelectRemediationNode(ApplyPolicy, s)
  }

  function SelectPostApproval(s: State): Edge {
    match DecisionOf(s)
    case Approved => SelectRemediationNode(ReviewRemediationApproval, s)
    case Rejected => Goto(ClassifyFailure)
    case Undecided => Goto(End)
  }

  function SelectPostValidation(env: Env, s: State): Edge {
    if s.validations == [] then BadEdge(InvariantViolation(ValidateRemediation, "validation_results"))
    else if LatestFailed(s) then Goto(HandleValidationFailure)
    else if env.dryRun then Goto(SkipPublishForDryRun)
    else if s.requiresDelivery && !HasApproved(s, DeliveryStage) then Goto(PrepareDeliveryApproval)
    else Goto(PublishRemediation)
  }

  function SelectPostDeliveryApproval(s: State): Edge {
    match DecisionOf(s)
    case Approved => Goto(PublishRemediation)
    case Rejected => Goto(ClassifyFailure)
    case Undecided => Goto(End)
  }

  function SelectPostDelivery(s: State): Edge {
    if s.status.Failed? && s.errors != [] then Goto(ClassifyFailure)
    else if s.pending != [] then Goto(DetectMavenProfile)
    else Goto(End)
  }

  function SelectFailure(s: State): Edge {
    if s.retry.Some? then Goto(s.retry.value.nextNode) else Goto(Escalate)
  }

  function Route(env: Env, n: Node, s: State): Edge {
    match n
    case BootstrapState => Goto(ProbeCredentials)
    case ProbeCredentials => Goto(IngestAndParseJira)
    case IngestAndParseJira => Goto(LoadRepositoryContext)
    case LoadRepositoryContext => Goto(CheckRepositoryIdempotency)
    case CheckRepositoryIdempotency => Goto(if s.pending != [] then DetectMavenProfile else End)
    case DetectMavenProfile => Goto(VerifyAdvisory)
    case VerifyAdvisory => Goto(VerifyMavenTarget)
    case VerifyMavenTarget => Goto(SelectRoute)
    case SelectRoute => Goto(ApplyPolicy)
    case ApplyPolicy => SelectPostPolicy(s)
    case ReviewRemediationApproval => SelectPostApproval(s)
    case PrepareComplexRemediation => Goto(ExecuteComplexScaffold)
    case ExecuteComplexScaffold => Goto(ValidateRemediation)
    case RemediateSimple => Goto(PreflightValidate)
    case RemediateTransitive => Goto(PreflightValidate)
    case PreflightValidate => Goto(ValidateRemediation)
    case ValidateRemediation => SelectPostValidation(env, s)
    case HandleValidationFailure => Goto(ClassifyFailure)
    case PrepareDeliveryApproval => Goto(ReviewDeliveryApproval)
    case ReviewDeliveryApproval => SelectPostDeliveryApproval(s)
    case PublishRemediation => SelectPostDelivery(s)
    case SkipPublishForDryRun => SelectPostDelivery(s)
    case ClassifyFailure => SelectFailure(s)
    case Escalate => Goto(End)
    case End => Goto(End)
  }

  // The edge map declared for each node.
  function Successors(n: Node): set<Node> {
    match n
    case BootstrapState => {ProbeCredentials}
    case ProbeCredentials => {IngestAndParseJira}
    case IngestAndParseJira => {LoadRepositoryContext}
    case LoadRepositoryContext => {CheckRepositoryIdempotency}
    case CheckRepositoryIdempotency => {DetectMavenProfile, End}
    case DetectMavenProfile => {VerifyAdvisory}
    case VerifyAdvisory => {VerifyMavenTarget}
    case VerifyMavenTarget => {SelectRoute}
    case SelectRoute => {ApplyPolicy}
    case ApplyPolicy =>
      {ReviewRemediationApproval, PrepareComplexRemediation, RemediateSimple, RemediateTransitive, End}
    case ReviewRemediationApproval =>
      {ClassifyFailure, PrepareComplexRemediation, RemediateSimple, RemediateTransitive, End}
    case PrepareComplexRemediation => {ExecuteComplexScaffold}
    case ExecuteComplexScaffold => {ValidateRemediation}
    case RemediateSimple => {PreflightValidate}
    case RemediateTransitive => {PreflightValidate}
    case PreflightValidate => {ValidateRemediation}
    case ValidateRemediation =>
      {HandleValidationFailure, PrepareDeliveryApproval, SkipPublishForDryRun, PublishRemediation}
    case HandleValidationFailure => {ClassifyFailure}
    case PrepareDeliveryApproval => {ReviewDeliveryApproval}
    case ReviewDeliveryApproval => {ClassifyFailure, PublishRemediation, End}
    case PublishRemediation => {ClassifyFailure, DetectMavenProfile, End}
    case SkipPublishForDryRun => {DetectMavenProfile, End}
    case ClassifyFailure =>
      {ExecuteComplexScaffold, Escalate, PublishRemediation, RemediateSimple, RemediateTransitive}
    case Escalate => {End}
    case End => {}
  }

  /* ---------- Runs ---------- */

  // A persisted thread: the node to execute next, the state, whether this invocation interrupts
  // before the approval gates, and what the run has done so far.
  datatype Config = Config(
    node: Node, s: State, armed: bool, fault: Option<Fault>,
    log: seq<Entry>, queue: seq<string>, steps: nat)

  const Start: Config := Config(BootstrapState, InitialState, true, None, [], [], 0)

  // One node execution, or one `resume` with human feedback.
  datatype Move = Tick(input: Input) | Resume(decision: Decision)

  predicate AtGate(n: Node) {
    n.ReviewRemediationApproval? || n.ReviewDeliveryApproval?
  }

  // Interrupted before a gate, or ended because a gate found no decision.
  predicate Paused(c: Config) {
    && c.fault.None?
    && ((c.armed && AtGate(c.node)) || (c.node.End? && c.s.status.Pending? && c.s.pendingStage.Some?))
  }

  predicate Runnable(c: Config) {
    c.fault.None? && !c.node.End? && !(c.armed && AtGate(c.node))
  }

  predicate Enabled(c: Config, m: Move) {
    if m.Tick? then Runnable(c) else Paused(c)
  }

  function Follow(env: Env, c: Config, from: Node, outcome: Outcome): Config {
    match outcome
    case Raise(f) => c.(fault := Some(f))
    case Done(s, entries) =>
      match Route(env, from, s)
      case BadEdge(f) => c.(fault := Some(f))
      case Goto(n) =>
        if n !in Successors(from) then c.(fault := Some(UndeclaredEdge(from, n)))
        else c.(node := n, s := s, log := c.log + entries)
  }

  function TickMove(env: Env, c: Config, x: Input): Config {
    var c' := Follow(env, c.(steps := c.steps + 1), c.node, Exec(env, c.node, c.s, x));
    if c.node.CheckRepositoryIdempotency? then c'.(queue := c'.s.pending) else c'
  }

  function ResumeStage(s: State): Stage {
    if s.pendingStage == Some(DeliveryStage) then DeliveryStage else RemediationStage
  }

  function ResumeMove(env: Env, c: Config, decision: Decision): Config {
    var stage := ResumeStage(c.s);
    Follow(env, c.(armed := false), GateOf(stage), Review(stage, c.s.(feedback := Some(decision))))
  }

  function Step(env: Env, c: Config, m: Move): Config {
    if !Enabled(c, m) then c
    else if m.Tick? then TickMove(env, c, m.input)
    else ResumeMove(env, c, m.decision)
  }

  function RunFrom(env: Env, c: Config, moves: seq<Move>): Config
    decreases |moves|
  {
    if moves == [] then c else RunFrom(env, Step(env, c, moves[0]), moves[1..])
  }

  // A configuration reached by some run from the start.
  ghost predicate Reachable(env: Env, c: Config) {
    exists moves: seq<Move> :: c == RunFrom(env, Start, moves)
  }
}
