/**
 What holds over whole runs of the workflow: every configuration reachable from the start, by any
 sequence of node executions and resumes, with any answers from the adapters and approvers.
 */
module Runs {
  import opened Collections
  import opened Verdicts
  import opened Workflow
  import opened Trace
  import opened Invariant
  import opened Steps

  lemma HoldsAt(env: Env, c: Config)
    requires Reachable(env, c) && !BeforeIntake(c.node)
    ensures c.fault.None? && Frame(env, c.s, c.log, c.queue) && AtNode(env, c.node, c.s, c.log)
  {
    hide Reachable, Frame, AtNode, Bounded, Blank;
    ReachableHolds(env, c);
  }

  /** No node is ever entered without the state it requires, no queue is popped empty, no workspace
      is missing, and every router answers with a declared edge. */
  lemma NoFault(env: Env, c: Config)
    requires Reachable(env, c)
    ensures c.fault.None?
  {
    ReachableHolds(env, c);
  }

  /** Every history is justified, entry by entry. */
  lemma SafeHistory(env: Env, c: Config)
    requires Reachable(env, c)
    ensures Justified(env, c.log)
  {
    ReachableHolds(env, c);
  }

  /** Gates over whole runs: a lane runs only on a repository policy let through, with the approval
      policy asked for; the complex lane always has a remediation approval; publication follows a
      passing verdict and, where policy asks for it, a delivery approval of the same repository. */
  lemma GateSafety(env: Env, c: Config, k: nat)
    requires Reachable(env, c) && k < |c.log|
    ensures var e := c.log[k]; var before := c.log[..k];
      && (e.LaneRun? ==> Permitted(before, e.repo) && !RepoDone(before, e.repo))
      && (e.LaneRun? && e.strategy.ComplexRefactor? ==> Granted(e.repo, RemediationStage) in before)
      && (e.LanePlanned? ==> Granted(e.repo, RemediationStage) in before && !RepoDone(before, e.repo))
      && (e.PublishRun? ==> Publishable(before, e.repo) && !env.dryRun && !RepoDone(before, e.repo))
      && (e.PullRequestOpened? ==> e.draft != AsDraft)
  {
    SafeHistory(env, c);
    assert Allowed(env, c.log[..k], c.log[k]);
  }

  predicate RepoDone(log: seq<Entry>, r: string) {
    RepoCompleted(r) in log
  }

  /** At most once: no external effect is repeated for a repository, across all retries. */
  lemma EffectsAtMostOnce(env: Env, c: Config, i: nat, j: nat)
    requires Reachable(env, c) && i < j < |c.log|
    ensures !SameEffect(c.log[i], c.log[j])
    ensures c.log[i].RepoCompleted? ==> c.log[j].repo != c.log[i].repo
  {
    SafeHistory(env, c);
    AtMostOnce(env, c.log, i, j);
    if c.log[i].RepoCompleted? {
      CompletedIsFinal(env, c.log, i, j);
    }
  }

  /** A completed repository had, outside dry runs, each external effect, in order. */
  lemma CompletedWasDelivered(env: Env, c: Config, r: string) returns (b: nat, p: nat, j: nat, k: nat)
    requires Reachable(env, c) && r in c.s.completed && !env.dryRun
    ensures b < p < j < k < |c.log|
    ensures c.log[b] == BranchPublished(r)
    ensures c.log[p].PullRequestOpened? && c.log[p].repo == r
    ensures c.log[j] == JiraCompleted(r)
    ensures c.log[k] == RepoCompleted(r)
  {
    ReachableHolds(env, c);
    assert RepoCompleted(r) in c.log;
    k :| 0 <= k < |c.log| && c.log[k] == RepoCompleted(r);
    b, p, j := CompletionIsOrdered(env, c.log, k);
  }

  /** Queue conservation: what is done and what is left always make up what intake queued, in
      order, each repository once; the repository being worked on is the head of the queue. */
  lemma QueueConservation(env: Env, c: Config)
    requires Reachable(env, c) && !BeforeIntake(c.node)
    ensures c.s.completed + Distinct(c.s.pending) == Distinct(c.queue)
    ensures NoDuplicates(c.s.completed)
    ensures !c.node.End? && !c.node.DetectMavenProfile? ==> c.s.pending != [] && c.s.working == Some(c.s.pending[0])
  {
    ReachableHolds(env, c);
    WorkingIsHead(env, c);
    DistinctHasNoDuplicates(c.queue);
    var all := Distinct(c.queue);
    forall i, j | 0 <= i < j < |c.s.completed|
      ensures c.s.completed[i] != c.s.completed[j]
    {
      assert all[i] == c.s.completed[i] && all[j] == c.s.completed[j];
    }
  }

  lemma WorkingIsHead(env: Env, c: Config)
    requires Safe(env, c)
    ensures !c.node.End? && !c.node.DetectMavenProfile? ==> c.s.pending != [] && c.s.working == Some(c.s.pending[0])
  {
    hide Frame, LogView, OwnedBy;
  }

  lemma {:induction false} RemainingIsProduct(env: Env, n: nat)
    ensures Remaining(env, n) == n * RepoCost(env)
  {
    if n > 0 {
      RemainingIsProduct(env, n - 1);
      assert n * RepoCost(env) == (n - 1) * RepoCost(env) + RepoCost(env);
    }
  }

  /** Termination with an explicit bound: however often it is resumed, a run over n distinct
      repositories executes at most 7 + n (12 + 5 R) nodes, R being the retries the budgets leave. */
  lemma StepsBounded(env: Env, c: Config)
    requires Reachable(env, c)
    ensures c.steps <= 7 + |Distinct(c.queue)| * (12 + 5 * RetryCap(env))
  {
    hide Frame, AtNode, LogView, Distinct;
    ReachableHolds(env, c);
    RemainingIsProduct(env, |Distinct(c.queue)|);
    assert Rank(c) <= 19;
  }

  /** With the default budgets, one repository stays below the recursion limit of 64. */
  lemma OneRepositoryFitsTheLimit(env: Env, c: Config)
    requires Reachable(env, c) && env.maxRetries == 3 && env.maxTotal == 10 && |Distinct(c.queue)| == 1
    ensures c.steps <= 34 < 64
  {
    StepsBounded(env, c);
  }

  /** Every run that ends, ends in exactly one of five ways. */
  lemma EndsInOneWay(env: Env, c: Config) returns (ending: Ending)
    requires Reachable(env, c) && c.node.End?
    ensures EndsAs(env, c.s, c.log, ending)
    ensures forall other :: EndsAs(env, c.s, c.log, other) ==> other == ending
    ensures ending.EndedAwaiting? <==> Paused(c)
  {
    hide Reachable, Frame;
    HoldsAt(env, c);
    hide LogView, OwnedBy, Cleared, Decided, Counted, Unpublished, Unattempted, HasApproved;
    ending :| EndsAs(env, c.s, c.log, ending);
  }

  /** No run gets stuck: every reachable configuration can execute a node, waits for an approval, or
      has ended. */
  lemma NeverStuck(env: Env, c: Config)
    requires Reachable(env, c)
    ensures Runnable(c) || Paused(c) || c.node.End?
  {
    NoFault(env, c);
  }

  // The execution of n on s adds one event or more to the audit list, each under its own name, for the
  // repository at hand and with the decision it saw.
  predicate Audited(n: Node, s: State, s': State) {
    && s.audit <= s'.audit && (|s.audit| < |s'.audit| || n.End?)
    && forall i :: |s.audit| <= i < |s'.audit| ==>
         && s'.audit[i].node == n && s'.audit[i].decision == DecisionOf(s)
         && (s.working.Some? ==> s'.audit[i].repository == s.working)
  }

  predicate Audits(n: Node, s: State, o: Outcome) {
    o.Done? ==> Audited(n, s, o.state)
  }

  /** The audit log only grows, and every node that is executed and every decision that is given leaves its
      own events on it. */
  lemma AuditGrows(env: Env, c: Config, m: Move)
    requires Reachable(env, c)
    ensures c.s.audit <= Step(env, c, m).s.audit
    ensures Enabled(c, m) ==>
      match m
      case Tick(_) => Audited(c.node, c.s, Step(env, c, m).s)
      case Resume(d) => Audited(GateOf(ResumeStage(c.s)), c.s.(feedback := Some(d)), Step(env, c, m).s)
  {
    StepIsReached(env, c, m);
    NoFault(env, Step(env, c, m));
    hide Exec, Review, TickMove, ResumeMove, Reachable, Audited, ResumeStage, GateOf, Enabled;
    if Enabled(c, m) {
      match m
      case Tick(x) =>
        TickAudits(env, c, x);
        AuditedGrows(c.node, c.s, Step(env, c, m).s);
      case Resume(d) =>
        ResumeAudits(env, c, d);
        AuditedGrows(GateOf(ResumeStage(c.s)), c.s.(feedback := Some(d)), Step(env, c, m).s);
    }
  }

  lemma AuditedGrows(n: Node, s: State, s': State)
    requires Audited(n, s, s')
    ensures s.audit <= s'.audit
  {
    hide DecisionOf;
  }

  lemma TickAudits(env: Env, c: Config, x: Input)
    requires TickMove(env, c, x).fault.None?
    ensures Audited(c.node, c.s, TickMove(env, c, x).s)
  {
    ExecAudits(env, c.node, c.s, x);
    hide Exec, Audited, Route, Successors;
  }

  lemma ResumeAudits(env: Env, c: Config, d: Decision)
    requires ResumeMove(env, c, d).fault.None?
    ensures Audited(GateOf(ResumeStage(c.s)), c.s.(feedback := Some(d)), ResumeMove(env, c, d).s)
  {
    ReviewAudits(ResumeStage(c.s), c.s.(feedback := Some(d)));
    hide Review, Audited, Route, Successors, ResumeStage, GateOf;
  }

  lemma StepIsReached(env: Env, c: Config, m: Move)
    requires Reachable(env, c)
    ensures Reachable(env, Step(env, c, m))
  {
    var moves: seq<Move> :| c == RunFrom(env, Start, moves);
    hide Step;
    RunExtends(env, Start, moves, m);
  }

  lemma IntakeAudits(s: State, x: Input)
    ensures Audits(BootstrapState, s, Bootstrap(s)) && Audits(ProbeCredentials, s, Probe(s))
    ensures Audits(IngestAndParseJira, s, Ingest(s, x)) && Audits(LoadRepositoryContext, s, LoadContext(s, x))
    ensures Audits(CheckRepositoryIdempotency, s, CheckIdempotency(s, x))
  {
    hide WorkspacesOf, PendingOf, SkippedOf, DecisionOf;
  }

  lemma ProfileAudits(s: State)
    ensures Audits(DetectMavenProfile, s, DetectProfile(s)) && Audits(SelectRoute, s, ChooseRoute(s))
  {
    hide BuildRouteDecision;
  }

  lemma VerdictAudits(s: State, x: Input)
    ensures Audits(VerifyAdvisory, s, LoadAdvisory(s, x)) && Audits(VerifyMavenTarget, s, VerifyTarget(s, x))
  {
    hide DecisionOf;
  }

  lemma PolicyAudits(env: Env, s: State)
    ensures Audits(ApplyPolicy, s, ApplyPolicyUpdate(env, s))
  {
    hide EvaluatePolicy;
  }

  lemma ReviewAudits(stage: Stage, s: State)
    ensures Audits(GateOf(stage), s, Review(stage, s))
  {
    hide GateOf;
  }

  lemma PrepareAudits(s: State)
    ensures Audits(PrepareDeliveryApproval, s, PrepareDelivery(s))
  {
    hide DecisionOf;
  }

  lemma OneEvent(n: Node, s: State, s': State, repository: Option<string>)
    requires s'.audit == s.audit + [AuditEvent(n, repository, DecisionOf(s))] && (s.working.Some? ==> repository == s.working)
    ensures Audited(n, s, s')
  {
    hide DecisionOf;
  }

  lemma LaneEvent(n: Node, strategy: Strategy, s: State, x: Input)
    requires PomLane(n, strategy, s, x).Done?
    ensures var o := PomLane(n, strategy, s, x);
      o.state.audit == s.audit + [AuditEvent(n, o.state.working, DecisionOf(s))] && (s.working.Some? ==> o.state.working == s.working)
  {
  }

  lemma LaneAudits(n: Node, strategy: Strategy, s: State, x: Input)
    ensures Audits(n, s, PomLane(n, strategy, s, x))
  {
    hide PomLane, Audited, DecisionOf;
    var o := PomLane(n, strategy, s, x);
    if o.Done? {
      LaneEvent(n, strategy, s, x);
      OneEvent(n, s, o.state, o.state.working);
    }
  }

  lemma PlanAudits(s: State)
    ensures Audits(PrepareComplexRemediation, s, PrepareComplex(s))
  {
  }

  lemma ScaffoldAudits(s: State, x: Input)
    ensures Audits(ExecuteComplexScaffold, s, ExecuteScaffold(s, x))
  {
    hide DecisionOf;
  }

  lemma ValidationAudits(s: State, x: Input)
    ensures Audits(PreflightValidate, s, Preflight(s, x)) && Audits(ValidateRemediation, s, Validate(s, x))
    ensures Audits(HandleValidationFailure, s, HandleFailure(s))
  {
    hide ErrorOfResult, DecisionOf;
  }

  lemma FailureAudits(env: Env, s: State)
    ensures Audits(ClassifyFailure, s, ClassifyUpdate(env, s)) && Audits(Escalate, s, EscalateUpdate(s))
  {
    hide Classify, CanRetry, RetryNode, DecisionOf;
  }

  lemma FinishAudits(s: State, n: Node, repo: string)
    ensures FinishRepository(s, n, repo).audit == s.audit + [AuditEvent(n, s.working, DecisionOf(s))]
  {
    hide Without, FindTargetIndex, DecisionOf;
  }

  lemma PublishAudits(s: State, x: Input)
    ensures Audits(PublishRemediation, s, Publish(s, x))
  {
    if s.working.Some? {
      FinishAudits(WithDelivery(s, Deliver(s, s.working.value, x)), PublishRemediation, s.working.value);
    }
    hide Deliver, FinishRepository, DeliveryErrorCode;
  }

  lemma SkipAudits(s: State)
    ensures Audits(SkipPublishForDryRun, s, SkipPublish(s))
  {
    if s.working.Some? {
      FinishAudits(s, SkipPublishForDryRun, s.working.value);
    }
    hide FinishRepository, DecisionOf;
  }

  lemma EndAudits(s: State)
    ensures Audits(End, s, Done(s, []))
  {
    hide DecisionOf;
  }

  lemma ExecAudits(env: Env, n: Node, s: State, x: Input)
    ensures Audits(n, s, Exec(env, n, s, x))
  {
    hide Audits, Bootstrap, Probe, Ingest, LoadContext, CheckIdempotency, DetectProfile, LoadAdvisory, VerifyTarget, ChooseRoute,
      ApplyPolicyUpdate, Review, PrepareDelivery, PomLane, PrepareComplex, ExecuteScaffold, Preflight, Validate,
      HandleFailure, ClassifyUpdate, EscalateUpdate, Publish, SkipPublish;
    IntakeAudits(s, x);
    ProfileAudits(s);
    VerdictAudits(s, x);
    PolicyAudits(env, s);
    ReviewAudits(RemediationStage, s);
    ReviewAudits(DeliveryStage, s);
    PrepareAudits(s);
    PlanAudits(s);
    ScaffoldAudits(s, x);
    LaneAudits(RemediateSimple, SimpleUpdate, s, x);
    LaneAudits(RemediateTransitive, TransitiveOverride, s, x);
    ValidationAudits(s, x);
    FailureAudits(env, s);
    PublishAudits(s, x);
    SkipAudits(s);
    EndAudits(s);
  }

  lemma {:induction false} AuditIsPrefix(env: Env, c: Config, moves: seq<Move>)
    requires Reachable(env, c)
    ensures c.s.audit <= RunFrom(env, c, moves).s.audit
    decreases |moves|
  {
    hide Step, Reachable;
    if moves != [] {
      StepIsReached(env, c, moves[0]);
      AuditGrows(env, c, moves[0]);
      AuditIsPrefix(env, Step(env, c, moves[0]), moves[1..]);
    }
  }

  /** The retry counters agree until escalation, also where the run ends without one, and stay within
      both budgets. */
  lemma RetryBudget(env: Env, c: Config)
    requires Reachable(env, c)
    ensures c.s.retryCount <= RetryCap(env)
    ensures !c.s.escalated && !c.node.Escalate? ==> c.s.retryCount == c.s.totalAttempts
    ensures c.s.escalated ==> c.node.End?
  {
    hide Reachable;
    if BeforeIntake(c.node) {
      BlankAt(env, c);
    } else {
      HoldsAt(env, c);
      hide Frame;
      CountedAt(env, c);
    }
  }

  lemma BlankAt(env: Env, c: Config)
    requires Reachable(env, c) && BeforeIntake(c.node)
    ensures Blank(c)
  {
    hide Reachable, Frame, AtNode, Bounded, Blank;
    ReachableHolds(env, c);
  }

  lemma CountedAt(env: Env, c: Config)
    requires !BeforeIntake(c.node) && AtNode(env, c.node, c.s, c.log)
    ensures c.s.retryCount <= RetryCap(env)
    ensures !c.s.escalated && !c.node.Escalate? ==> c.s.retryCount == c.s.totalAttempts
    ensures c.s.escalated ==> c.node.End?
  {
    hide RetryCap, LogView, OwnedBy, Routed, Decided, Cleared, Dirty, RanLane, Unpublished, HasApproved, LatestPassed,
      FailureKnown, PolicyOpen, ScaffoldPrepared;
  }

  /** No datum about one repository is ever held while another is worked on. */
  lemma DataIsOwned(env: Env, c: Config)
    requires Reachable(env, c) && !BeforeIntake(c.node) && !c.node.End?
    ensures if c.node.DetectMavenProfile? then Fresh(c.s) else c.s.pending != [] && OwnedBy(c.s, c.s.pending[0])
  {
    hide Reachable, Frame;
    HoldsAt(env, c);
    hide LogView, OwnedBy, Untouched, PolicyOpen, Cleared, Decided, Routed, Counted, Dirty, RanLane, Unpublished, HasApproved,
      LatestPassed, FailureKnown, ScaffoldPrepared;
  }

  // The node runs one of the remediation lanes of this strategy.
  predicate Executes(n: Node, strategy: Strategy) {
    match strategy
    case SimpleUpdate => n.RemediateSimple?
    case TransitiveOverride => n.RemediateTransitive?
    case ComplexRefactor => n.PrepareComplexRemediation? || n.ExecuteComplexScaffold?
    case UnknownRoute => false
  }

  predicate PastLane(n: Node) {
    n.PreflightValidate? || n.ValidateRemediation? || n.HandleValidationFailure? || n.PublishRemediation? || n.SkipPublishForDryRun?
  }

  /** Whatever retries came between, a lane runs only when both verdicts about this repository are
      trusted, and it is the lane they call for. */
  lemma LaneMatchesVerdicts(env: Env, c: Config, strategy: Strategy)
    requires Reachable(env, c) && Executes(c.node, strategy)
    ensures c.s.advisory == Some(Verified) && c.s.maven.Some? && c.s.maven.value.status.Verified?
    ensures strategy.ComplexRefactor? <==> c.s.maven.value.highRisk
    ensures strategy.TransitiveOverride? <==> c.s.maven.value.transitive && !c.s.maven.value.highRisk
  {
    AtItsLane(env, c, strategy);
    ClearedVerdicts(c.s);
    hide Executes, Reachable, Active, Cleared, Dirty, LogView, OwnedBy;
  }

  /** Nothing untrusted is ever validated or published. */
  lemma OnlyTrustedIsPublished(env: Env, c: Config)
    requires Reachable(env, c) && PastLane(c.node)
    ensures c.s.advisory == Some(Verified) && c.s.maven.Some? && c.s.maven.value.status.Verified?
  {
    hide Reachable, Frame;
    HoldsAt(env, c);
    PastLaneCleared(env, c);
    hide *;
    ClearedVerdicts(c.s);
  }

  lemma PastLaneCleared(env: Env, c: Config)
    requires PastLane(c.node) && AtNode(env, c.node, c.s, c.log)
    ensures Cleared(c.s)
  {
    hide Active, Cleared;
  }

  lemma ClearedVerdicts(s: State)
    requires Cleared(s)
    ensures s.advisory == Some(Verified) && s.maven.Some? && s.maven.value.status.Verified?
    ensures s.route.value.strategy.ComplexRefactor? <==> s.maven.value.highRisk
    ensures s.route.value.strategy.TransitiveOverride? <==> s.maven.value.transitive && !s.maven.value.highRisk
  {
  }

  /** A lane always starts without leftovers of an earlier attempt, and it is entered a second time
      only after the failed attempt before it was rolled back. */
  lemma AttemptsStartClean(env: Env, c: Config, strategy: Strategy)
    requires Reachable(env, c) && Executes(c.node, strategy)
    ensures c.s.modified == [] && c.s.rollback.None? && c.s.preflight.None?
    ensures c.s.validations != [] ==> LatestFailed(c.s) && c.s.working.Some? && RolledBack(c.s.working.value) in c.log
    ensures c.s.working.Some? && !Dirty(c.log, c.s.working.value)
  {
    AtItsLane(env, c, strategy);
    hide *;
    LaneStartsClean(env, c.s, c.log, strategy);
  }

  lemma AtItsLane(env: Env, c: Config, strategy: Strategy)
    requires Reachable(env, c) && Executes(c.node, strategy)
    ensures AtLane(env, c.s, c.log, strategy)
  {
    hide Reachable, LaneReady, Frame;
    HoldsAt(env, c);
    hide AtDetect, AtVerifyAdvisory, AtVerifyMaven, AtSelectRoute, AtApplyPolicy, AtReviewRemediation, AtLane, AtPreflight,
      AtValidate, AtHandleFailure, AtPrepareDelivery, AtReviewDelivery, AtSkip, AtClassify, AtEscalate, AtEnd, DeliveryReady;
  }

  lemma LaneStartsClean(env: Env, s: State, log: seq<Entry>, strategy: Strategy)
    requires AtLane(env, s, log, strategy)
    ensures s.modified == [] && s.rollback.None? && s.preflight.None?
    ensures s.working.Some? && !Dirty(log, s.working.value)
    ensures s.validations != [] ==> LatestFailed(s) && RolledBack(s.working.value) in log
  {
    hide Dirty, LogView, OwnedBy;
  }
}
