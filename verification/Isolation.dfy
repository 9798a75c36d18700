/**
 A run over a queue of repositories is the sequential composition of runs over one repository each.

 Every repository starts from the state `StartOf` builds from the initial state alone, and from
 there its part of the run is, move by move, a run over that repository only: nothing an earlier
 repository left behind, and nothing still waiting in the queue, can influence it.
 */
module Isolation {
  import opened Collections
  import opened Verdicts
  import opened Workflow
  import opened Trace
  import opened Invariant
  import opened Preservation
  import opened Steps

  // Where a run over the single repository r starts, once intake is done.
  function StartOf(vulnerability: Option<string>, repoMap: map<string, Workspace>, r: string): State {
    InitialState.(status := InProgress, vulnerability := vulnerability, repoMap := repoMap, pending := [r])
  }

  // t is s except for the bookkeeping across repositories.
  function Graft(s: State, t: State): State {
    s.(completed := t.completed, skipped := t.skipped, audit := t.audit, targets := t.targets,
       targetIndex := t.targetIndex, pending := t.pending)
  }

  // s and t agree on everything that concerns the repository at the head of their queues.
  predicate Similar(s: State, t: State) {
    && t == Graft(s, t)
    && s.pending != [] && t.pending != [] && s.pending[0] == t.pending[0]
  }

  // Until it is loaded again, the advisory of the ticket does not matter either.
  predicate SimilarAt(n: Node, s: State, t: State) {
    if n.DetectMavenProfile? || n.VerifyAdvisory? then Similar(s, t.(advisory := s.advisory)) else Similar(s, t)
  }

  predicate SameQueue(s: State, s': State) {
    s'.pending == s.pending && s'.repoMap == s.repoMap && s'.vulnerability == s.vulnerability
  }

  predicate SimilarOutcomes(n: Node, s: State, t: State, o: Outcome, p: Outcome) {
    && o.Done? && p.Done? && o.entries == p.entries && SimilarAt(n, o.state, p.state)
    && SameQueue(s, o.state) && SameQueue(t, p.state)
  }

  /* ---------- Every repository starts afresh ---------- */

  /** What intake or the previous repository leaves is the initial state with the remaining queue:
      every field a run depends on has its initial value. */
  lemma StartsAfresh(env: Env, c: Config)
    requires Safe(env, c) && c.node.DetectMavenProfile?
    ensures SimilarAt(DetectMavenProfile, c.s, StartOf(c.s.vulnerability, c.s.repoMap, c.s.pending[0]))
  {
    hide Frame;
  }

  /* ---------- Node by node ---------- */

  lemma DetectAlike(s: State, t: State)
    requires SimilarAt(DetectMavenProfile, s, t) && s.working.None? && s.pending[0] in s.repoMap
    ensures SimilarOutcomes(VerifyAdvisory, s, t, DetectProfile(s), DetectProfile(t))
  {
  }

  lemma AdvisoryAlike(s: State, t: State, x: Input)
    requires SimilarAt(VerifyAdvisory, s, t) && s.vulnerability.Some?
    ensures SimilarOutcomes(VerifyMavenTarget, s, t, LoadAdvisory(s, x), LoadAdvisory(t, x))
  {
  }

  lemma TargetAlike(s: State, t: State, x: Input)
    requires Similar(s, t) && s.vulnerability.Some? && s.advisory.Some? && s.working.Some? && s.working.value in s.repoMap
    ensures SimilarOutcomes(SelectRoute, s, t, VerifyTarget(s, x), VerifyTarget(t, x))
  {
  }

  lemma RouteAlike(s: State, t: State)
    requires Similar(s, t) && s.advisory.Some? && s.maven.Some?
    ensures SimilarOutcomes(ApplyPolicy, s, t, ChooseRoute(s), ChooseRoute(t))
  {
  }

  lemma PolicyAlike(env: Env, n: Node, s: State, t: State)
    requires Similar(s, t) && s.working.Some? && s.working.value in s.repoMap
    requires !n.DetectMavenProfile? && !n.VerifyAdvisory?
    ensures SimilarOutcomes(n, s, t, ApplyPolicyUpdate(env, s), ApplyPolicyUpdate(env, t))
  {
    assert EvaluatePolicy(env.policy, s) == EvaluatePolicy(env.policy, t) by {
      assert ApprovalReasons(s, env.policy, CurrentTags(s)) == ApprovalReasons(t, env.policy, CurrentTags(t));
    }
    hide EvaluatePolicy, PolicyUpdate;
    PolicyUpdateAlike(n, s, t, EvaluatePolicy(env.policy, s));
  }

  lemma PolicyUpdateAlike(n: Node, s: State, t: State, d: PolicyDecision)
    requires Similar(s, t) && !n.DetectMavenProfile? && !n.VerifyAdvisory?
    ensures SimilarAt(n, PolicyUpdate(s, d), PolicyUpdate(t, d))
    ensures SameQueue(s, PolicyUpdate(s, d)) && SameQueue(t, PolicyUpdate(t, d))
  {
    if d.allowed {
      if d.requiresApproval {
      } else {
      }
    } else {
      if d.requiresApproval {
      } else {
      }
    }
  }

  lemma ReviewAlike(n: Node, stage: Stage, s: State, t: State)
    requires Similar(s, t) && !n.DetectMavenProfile? && !n.VerifyAdvisory?
    ensures SimilarOutcomes(n, s, t, Review(stage, s), Review(stage, t))
  {
    assert DecisionOf(s) == DecisionOf(t);
    match DecisionOf(s)
    case Undecided =>
    case Approved =>
    case Rejected =>
  }

  lemma PrepareDeliveryAlike(s: State, t: State)
    requires Similar(s, t)
    ensures SimilarOutcomes(ReviewDeliveryApproval, s, t, PrepareDelivery(s), PrepareDelivery(t))
  {
  }

  lemma PomLaneAlike(n: Node, strategy: Strategy, s: State, t: State, x: Input)
    requires Similar(s, t) && s.working.Some? && PomLane(n, strategy, s, x).Done?
    ensures SimilarOutcomes(PreflightValidate, s, t, PomLane(n, strategy, s, x), PomLane(n, strategy, t, x))
  {
  }

  lemma PrepareComplexAlike(s: State, t: State)
    requires Similar(s, t) && s.working.Some? && PrepareComplex(s).Done?
    ensures SimilarOutcomes(ExecuteComplexScaffold, s, t, PrepareComplex(s), PrepareComplex(t))
  {
  }

  lemma ScaffoldAlike(s: State, t: State, x: Input)
    requires Similar(s, t) && ExecuteScaffold(s, x).Done?
    ensures SimilarOutcomes(ValidateRemediation, s, t, ExecuteScaffold(s, x), ExecuteScaffold(t, x))
  {
  }

  lemma PreflightAlike(s: State, t: State, x: Input)
    requires Similar(s, t) && s.working.Some?
    ensures SimilarOutcomes(ValidateRemediation, s, t, Preflight(s, x), Preflight(t, x))
  {
  }

  lemma ValidateAlike(n: Node, s: State, t: State, x: Input)
    requires Similar(s, t) && s.working.Some? && !n.DetectMavenProfile? && !n.VerifyAdvisory?
    ensures SimilarOutcomes(n, s, t, Validate(s, x), Validate(t, x))
  {
  }

  lemma HandleFailureAlike(s: State, t: State)
    requires Similar(s, t) && s.working.Some? && s.validations != []
    ensures SimilarOutcomes(ClassifyFailure, s, t, HandleFailure(s), HandleFailure(t))
  {
    hide ErrorOfResult;
  }

  lemma ClassifyAlike(env: Env, n: Node, s: State, t: State)
    requires Similar(s, t) && !n.DetectMavenProfile? && !n.VerifyAdvisory?
    ensures SimilarOutcomes(n, s, t, ClassifyUpdate(env, s), ClassifyUpdate(env, t))
  {
    assert CanRetry(env, s) == CanRetry(env, t) && RetryNode(s) == RetryNode(t);
    hide Classify, CanRetry, RetryNode;
  }

  lemma EscalateAlike(s: State, t: State)
    requires Similar(s, t)
    ensures SimilarOutcomes(End, s, t, EscalateUpdate(s), EscalateUpdate(t))
  {
  }

  lemma DeliverAlike(s: State, t: State, repo: string, x: Input)
    requires Similar(s, t)
    ensures Deliver(s, repo, x) == Deliver(t, repo, x)
  {
  }

  lemma FailedPublishAlike(s: State, t: State, x: Input)
    requires Similar(s, t) && s.working == Some(s.pending[0]) && Deliver(s, s.pending[0], x).failure.Some?
    ensures SimilarOutcomes(ClassifyFailure, s, t, Publish(s, x), Publish(t, x))
  {
    DeliverAlike(s, t, s.pending[0], x);
    hide Deliver, DeliveryErrorCode;
  }

  // Both finish, with the same effects.
  lemma FinishedPublishAlike(s: State, t: State, x: Input)
    requires Similar(s, t) && s.working == Some(s.pending[0]) && Deliver(s, s.pending[0], x).failure.None?
    ensures Publish(s, x).Done? && Publish(t, x).Done? && Publish(s, x).entries == Publish(t, x).entries
  {
    DeliverAlike(s, t, s.pending[0], x);
    hide Deliver, FinishRepository;
  }

  lemma RoutersAlike(env: Env, n: Node, s: State, t: State)
    requires Similar(s, t)
    ensures Route(env, n, s) == Route(env, n, t)
  {
  }

  /* ---------- One move of both runs ---------- */

  lemma HeadKnown(env: Env, c: Config)
    requires Safe(env, c) && !c.node.End?
    ensures c.s.pending != [] && c.s.pending[0] in c.s.repoMap && c.s.vulnerability.Some?
    ensures if c.node.DetectMavenProfile? then c.s.working.None? else c.s.working == Some(c.s.pending[0])
  {
    hide LogView, OwnedBy, Justified, LogScope, QueueConserved, Cleared, Counted;
  }

  // This node execution finishes the repository.
  predicate Finishes(n: Node, s: State, x: Input) {
    || n.SkipPublishForDryRun?
    || (n.PublishRemediation? && s.working.Some? && Deliver(s, s.working.value, x).failure.None?)
  }

  predicate OutcomesMatch(n: Node, s: State, t: State, o: Outcome, p: Outcome) {
    && o.Done? && p.Done? && o.entries == p.entries
    && SameQueue(s, o.state) && SameQueue(t, p.state)
    && if n.DetectMavenProfile? then SimilarAt(VerifyAdvisory, o.state, p.state) else Similar(o.state, p.state)
  }

  lemma ExecAlike(env: Env, n: Node, s: State, t: State, x: Input)
    requires SimilarAt(n, s, t) && !BeforeIntake(n) && !n.End? && Exec(env, n, s, x).Done? && !Finishes(n, s, x)
    requires s.pending[0] in s.repoMap && s.vulnerability.Some?
    requires if n.DetectMavenProfile? then s.working.None? else s.working == Some(s.pending[0])
    ensures OutcomesMatch(n, s, t, Exec(env, n, s, x), Exec(env, n, t, x))
  {
    if n.DetectMavenProfile? {
      DetectAlike(s, t);
    } else if n.VerifyAdvisory? {
      AdvisoryAlike(s, t, x);
    } else {
      LaterExecAlike(env, n, s, t, x);
    }
  }

  lemma PlanningAlike(env: Env, n: Node, s: State, t: State, x: Input)
    requires Similar(s, t) && Exec(env, n, s, x).Done? && !Finishes(n, s, x)
    requires s.pending[0] in s.repoMap && s.vulnerability.Some? && s.working == Some(s.pending[0])
    requires n.VerifyMavenTarget? || n.SelectRoute? || n.ApplyPolicy?
    ensures OutcomesMatch(n, s, t, Exec(env, n, s, x), Exec(env, n, t, x))
  {
    hide Bootstrap, Probe, Ingest, LoadContext, CheckIdempotency, DetectProfile, LoadAdvisory, ApplyPolicyUpdate, Review, PrepareDelivery, PomLane, PrepareComplex, ExecuteScaffold, Preflight, Validate, HandleFailure, ClassifyUpdate, EscalateUpdate, Publish, SkipPublish;
    match n
    case VerifyMavenTarget => TargetAlike(s, t, x);
    case SelectRoute => RouteAlike(s, t);
    case ApplyPolicy => PolicyAlike(env, ReviewRemediationApproval, s, t);
  }

  lemma GatesAlike(env: Env, n: Node, s: State, t: State, x: Input)
    requires Similar(s, t) && Exec(env, n, s, x).Done? && !Finishes(n, s, x)
    requires s.pending[0] in s.repoMap && s.vulnerability.Some? && s.working == Some(s.pending[0])
    requires n.ReviewRemediationApproval? || n.PrepareDeliveryApproval? || n.ReviewDeliveryApproval?
    ensures OutcomesMatch(n, s, t, Exec(env, n, s, x), Exec(env, n, t, x))
  {
    hide Bootstrap, Probe, Ingest, LoadContext, CheckIdempotency, DetectProfile, LoadAdvisory, VerifyTarget, ChooseRoute, ApplyPolicyUpdate, Review, PrepareDelivery, PomLane, PrepareComplex, ExecuteScaffold, Preflight, Validate, HandleFailure, ClassifyUpdate, EscalateUpdate, Publish, SkipPublish;
    match n
    case ReviewRemediationApproval => ReviewAlike(End, RemediationStage, s, t);
    case PrepareDeliveryApproval => PrepareDeliveryAlike(s, t);
    case ReviewDeliveryApproval => ReviewAlike(End, DeliveryStage, s, t);
  }

  lemma LanesAlike(env: Env, n: Node, s: State, t: State, x: Input)
    requires Similar(s, t) && Exec(env, n, s, x).Done? && !Finishes(n, s, x)
    requires s.pending[0] in s.repoMap && s.vulnerability.Some? && s.working == Some(s.pending[0])
    requires n.PrepareComplexRemediation? || n.ExecuteComplexScaffold? || n.RemediateSimple? || n.RemediateTransitive? || n.PreflightValidate?
    ensures OutcomesMatch(n, s, t, Exec(env, n, s, x), Exec(env, n, t, x))
  {
    hide Bootstrap, Probe, Ingest, LoadContext, CheckIdempotency, DetectProfile, LoadAdvisory, VerifyTarget, ChooseRoute, ApplyPolicyUpdate, Review, PrepareDelivery, PomLane, PrepareComplex, ExecuteScaffold, Preflight, Validate, HandleFailure, ClassifyUpdate, EscalateUpdate, Publish, SkipPublish;
    match n
    case PrepareComplexRemediation => PrepareComplexAlike(s, t);
    case ExecuteComplexScaffold => ScaffoldAlike(s, t, x);
    case RemediateSimple => PomLaneAlike(RemediateSimple, SimpleUpdate, s, t, x);
    case RemediateTransitive => PomLaneAlike(RemediateTransitive, TransitiveOverride, s, t, x);
    case PreflightValidate => PreflightAlike(s, t, x);
  }

  lemma OutcomeNodesAlike(env: Env, n: Node, s: State, t: State, x: Input)
    requires Similar(s, t) && Exec(env, n, s, x).Done? && !Finishes(n, s, x)
    requires s.pending[0] in s.repoMap && s.vulnerability.Some? && s.working == Some(s.pending[0])
    requires n.ValidateRemediation? || n.HandleValidationFailure? || n.ClassifyFailure? || n.Escalate? || n.PublishRemediation?
    ensures OutcomesMatch(n, s, t, Exec(env, n, s, x), Exec(env, n, t, x))
  {
    hide Bootstrap, Probe, Ingest, LoadContext, CheckIdempotency, DetectProfile, LoadAdvisory, VerifyTarget, ChooseRoute, ApplyPolicyUpdate, Review, PrepareDelivery, PomLane, PrepareComplex, ExecuteScaffold, Preflight, Validate, ClassifyUpdate, EscalateUpdate, Publish, SkipPublish, Deliver;
    match n
    case ValidateRemediation => ValidateAlike(End, s, t, x);
    case HandleValidationFailure => HandleFailureAlike(s, t);
    case ClassifyFailure => ClassifyAlike(env, End, s, t);
    case Escalate => EscalateAlike(s, t);
    case PublishRemediation => FailedPublishAlike(s, t, x);
  }

  lemma LaterExecAlike(env: Env, n: Node, s: State, t: State, x: Input)
    requires Similar(s, t) && !BeforeIntake(n) && !n.End? && Exec(env, n, s, x).Done? && !Finishes(n, s, x)
    requires !n.DetectMavenProfile? && !n.VerifyAdvisory?
    requires s.pending[0] in s.repoMap && s.vulnerability.Some? && s.working == Some(s.pending[0])
    ensures OutcomesMatch(n, s, t, Exec(env, n, s, x), Exec(env, n, t, x))
  {
    hide Bootstrap, Probe, Ingest, LoadContext, CheckIdempotency, DetectProfile, LoadAdvisory, Graft, Deliver;
    if n.VerifyMavenTarget? || n.SelectRoute? || n.ApplyPolicy? {
      PlanningAlike(env, n, s, t, x);
    } else if n.ReviewRemediationApproval? || n.PrepareDeliveryApproval? || n.ReviewDeliveryApproval? {
      GatesAlike(env, n, s, t, x);
    } else if n.ValidateRemediation? || n.HandleValidationFailure? || n.ClassifyFailure? || n.Escalate? || n.PublishRemediation? {
      OutcomeNodesAlike(env, n, s, t, x);
    } else {
      LanesAlike(env, n, s, t, x);
    }
  }

  // Two runs stand at the same node, in states that agree on the repository at the head.
  predicate Alike(c: Config, d: Config) {
    c.node == d.node && c.armed == d.armed && SimilarAt(c.node, c.s, d.s)
  }

  // What one node execution records.
  function Recorded(env: Env, c: Config, x: Input): seq<Entry> {
    var o := Exec(env, c.node, c.s, x);
    if o.Done? then o.entries else []
  }

  lemma TickRecords(env: Env, c: Config, x: Input)
    requires Safe(env, c) && Runnable(c)
    ensures var o := Exec(env, c.node, c.s, x);
      && o.Done? && Route(env, c.node, o.state).Goto?
      && TickMove(env, c, x) == Landing(c, Route(env, c.node, o.state).node, o)
    ensures Safe(env, TickMove(env, c, x))
  {
    TickAfterIntake(env, c, x);
    hide Exec, Route, Successors, Frame, AtNode, Measure;
  }

  lemma TickAlike(env: Env, c: Config, d: Config, x: Input)
    requires Safe(env, c) && Safe(env, d) && Alike(c, d) && Runnable(c) && !Finishes(c.node, c.s, x)
    ensures Runnable(d)
    ensures var c' := TickMove(env, c, x); var d' := TickMove(env, d, x);
      && Safe(env, c') && Safe(env, d') && Alike(c', d')
      && c'.log == c.log + Recorded(env, c, x) && d'.log == d.log + Recorded(env, c, x)
      && c'.s.pending == c.s.pending && d'.s.pending == d.s.pending
      && c'.s.repoMap == c.s.repoMap && c'.s.vulnerability == c.s.vulnerability
  {
    HeadKnown(env, c);
    TickRecords(env, c, x);
    TickRecords(env, d, x);
    ExecAlike(env, c.node, c.s, d.s, x);
    hide Exec, Safe, TickMove, Graft;
    if !c.node.DetectMavenProfile? {
      RoutersAlike(env, c.node, Exec(env, c.node, c.s, x).state, Exec(env, d.node, d.s, x).state);
    }
  }

  lemma FinishRecords(env: Env, c: Config, x: Input)
    requires Safe(env, c) && Runnable(c) && Finishes(c.node, c.s, x)
    ensures var c' := TickMove(env, c, x);
      && Safe(env, c') && HeadFinished(c.s, c'.s) && c.s.working == Some(c.s.pending[0])
      && c'.node == (if c'.s.pending != [] then DetectMavenProfile else End)
      && c'.log == c.log + Recorded(env, c, x) && c'.armed == c.armed
  {
    TickRecords(env, c, x);
    HeadKnown(env, c);
    hide Frame, LogView, OwnedBy, Active;
    if c.node.SkipPublishForDryRun? {
      SkipNode(env, c.s, c.log, c.queue);
      hide SkipPublish;
    } else {
      assert DeliveryReady(env, c.s, c.log);
      DeliverySucceeds(env, c.s, c.log, c.queue, x);
      hide Publish;
    }
  }

  lemma FinishKeepsMap(env: Env, n: Node, s: State, x: Input)
    requires Finishes(n, s, x) && Exec(env, n, s, x).Done?
    ensures var s' := Exec(env, n, s, x).state; s'.repoMap == s.repoMap && s'.vulnerability == s.vulnerability
  {
    PublishKeepsMap(s, x);
    SkipKeepsMap(s);
    hide Deliver, Without, FindTargetIndex, Publish, SkipPublish;
  }

  lemma PublishKeepsMap(s: State, x: Input)
    ensures Publish(s, x).Done? ==>
      Publish(s, x).state.repoMap == s.repoMap && Publish(s, x).state.vulnerability == s.vulnerability
  {
    hide Deliver, Without, FindTargetIndex, DeliveryErrorCode;
  }

  lemma SkipKeepsMap(s: State)
    ensures SkipPublish(s).Done? ==>
      SkipPublish(s).state.repoMap == s.repoMap && SkipPublish(s).state.vulnerability == s.vulnerability
  {
    hide Without, FindTargetIndex;
  }

  lemma RecordedAtFinish(env: Env, c: Config, x: Input)
    requires c.node.SkipPublishForDryRun? || c.node.PublishRemediation?
    ensures var o := if c.node.SkipPublishForDryRun? then SkipPublish(c.s) else Publish(c.s, x);
      Recorded(env, c, x) == if o.Done? then o.entries else []
  {
    hide SkipPublish, Publish;
  }

  lemma FinishesAlike(env: Env, c: Config, d: Config, x: Input)
    requires Safe(env, c) && Safe(env, d) && Alike(c, d) && Runnable(c) && Finishes(c.node, c.s, x)
    ensures Runnable(d) && Finishes(d.node, d.s, x) && Recorded(env, d, x) == Recorded(env, c, x)
  {
    HeadKnown(env, c);
    RecordedAtFinish(env, c, x);
    RecordedAtFinish(env, d, x);
    hide Safe, Frame, Exec, Recorded;
    if c.node.PublishRemediation? {
      DeliverAlike(c.s, d.s, c.s.pending[0], x);
      FinishedPublishAlike(c.s, d.s, x);
      hide Publish, Deliver;
    } else {
      hide FinishRepository, Publish, Deliver;
    }
  }

  // Where a resume leads, once nothing can go wrong.
  lemma ResumeRecords(env: Env, c: Config, decision: Decision)
    requires Safe(env, c) && Paused(c)
    ensures var stage := ResumeStage(c.s); var o := Review(stage, c.s.(feedback := Some(decision)));
      var e := Route(env, GateOf(stage), if o.Done? then o.state else c.s);
      && o.Done? && e.Goto?
      && ResumeMove(env, c, decision) == c.(armed := false, node := e.node, s := o.state, log := c.log + o.entries)
    ensures Safe(env, ResumeMove(env, c, decision))
  {
    ResumeContinues(env, c, decision);
    hide Review, Route, Successors, Frame, AtNode, Measure;
  }

  lemma FeedbackAlike(n: Node, stage: Stage, s: State, t: State, decision: Decision)
    requires Similar(s, t) && !n.DetectMavenProfile? && !n.VerifyAdvisory?
    ensures var s1 := s.(feedback := Some(decision)); var t1 := t.(feedback := Some(decision));
      SimilarOutcomes(n, s, t, Review(stage, s1), Review(stage, t1))
  {
    ReviewAlike(n, stage, s.(feedback := Some(decision)), t.(feedback := Some(decision)));
    hide Review;
  }

  lemma ResumeAlike(env: Env, c: Config, d: Config, decision: Decision)
    requires Safe(env, c) && Safe(env, d) && Alike(c, d) && Paused(c)
    ensures Paused(d)
    ensures var c' := ResumeMove(env, c, decision); var d' := ResumeMove(env, d, decision);
      && Safe(env, c') && Safe(env, d') && Alike(c', d')
      && (exists es :: c'.log == c.log + es && d'.log == d.log + es)
      && SameQueue(c.s, c'.s) && SameQueue(d.s, d'.s)
  {
    PausedAlike(env, c, d);
    hide Safe, Review, Route, ResumeMove, Similar, Paused;
    ResumeRecords(env, c, decision);
    ResumeRecords(env, d, decision);
    var stage := ResumeStage(c.s);
    FeedbackAlike(End, stage, c.s, d.s, decision);
    var o := Review(stage, c.s.(feedback := Some(decision)));
    var p := Review(stage, d.s.(feedback := Some(decision)));
    RoutersAlike(env, GateOf(stage), o.state, p.state);
    ReviewTargets(env, stage, o.state);
  }

  lemma PausedAlike(env: Env, c: Config, d: Config)
    requires Safe(env, c) && Safe(env, d) && Alike(c, d) && Paused(c)
    ensures Paused(d) && ResumeStage(c.s) == ResumeStage(d.s) && Similar(c.s, d.s)
  {
    hide Frame, AtNode;
  }

  lemma ReviewTargets(env: Env, stage: Stage, s: State)
    ensures var e := Route(env, GateOf(stage), s); e.Goto? ==> !e.node.DetectMavenProfile? && !e.node.VerifyAdvisory?
  {
  }
}
